/**
 * The algebra behind both address checksums. A checksum register is fed one symbol at a time; feeding
 * is linear over exclusive-or and a zero symbol never erases a nonzero register. Everything that
 * follows from those two facts is proved here once, for any register type.
 */
module Polymod {

  datatype Machine<!W> = Machine(step: (W, W) -> W, xor: (W, W) -> W, zero: W)

  /** The register after reading the symbols vs. */
  ghost function Feed<W>(m: Machine<W>, c: W, vs: seq<W>): W {
    if vs == [] then c else Feed(m, m.step(c, vs[0]), vs[1..])
  }

  ghost predicate Group<W(!new)>(m: Machine<W>) {
    && (forall a :: m.xor(a, a) == m.zero)
    && (forall a :: m.xor(a, m.zero) == a)
    && (forall a, b :: m.xor(a, m.xor(a, b)) == b)
  }

  ghost predicate Linear<W(!new)>(m: Machine<W>) {
    forall a, b, u, v :: m.step(m.xor(a, b), m.xor(u, v)) == m.xor(m.step(a, u), m.step(b, v))
  }

  /** Symbol by symbol difference of two strings. */
  ghost function Diff<W>(m: Machine<W>, us: seq<W>, vs: seq<W>): (d: seq<W>)
    requires |us| == |vs|
    ensures |d| == |us|
    ensures forall i :: 0 <= i < |d| ==> d[i] == m.xor(us[i], vs[i])
  {
    seq(|us|, i requires 0 <= i < |us| => m.xor(us[i], vs[i]))
  }

  lemma {:induction false} FeedAppend<W>(m: Machine<W>, c: W, us: seq<W>, vs: seq<W>)
    ensures Feed(m, c, us + vs) == Feed(m, Feed(m, c, us), vs)
  {
    if us == [] {
      assert us + vs == vs;
    } else {
      assert (us + vs)[1..] == us[1..] + vs;
      FeedAppend(m, m.step(c, us[0]), us[1..], vs);
    }
  }

  lemma {:induction false} FeedLinear<W(!new)>(m: Machine<W>, a: W, b: W, us: seq<W>, vs: seq<W>)
    requires Linear(m) && |us| == |vs|
    ensures Feed(m, m.xor(a, b), Diff(m, us, vs)) == m.xor(Feed(m, a, us), Feed(m, b, vs))
  {
    if us != [] {
      assert Diff(m, us, vs)[1..] == Diff(m, us[1..], vs[1..]);
      FeedLinear(m, m.step(a, us[0]), m.step(b, vs[0]), us[1..], vs[1..]);
    }
  }

  /** Feeding two strings from one register value: only their difference matters. */
  lemma {:induction false} SameStart<W(!new)>(m: Machine<W>, c: W, us: seq<W>, vs: seq<W>)
    requires Linear(m) && Group(m) && |us| == |vs|
    ensures m.xor(Feed(m, c, us), Feed(m, c, vs)) == Feed(m, m.zero, Diff(m, us, vs))
  {
    FeedLinear(m, c, c, us, vs);
  }

  lemma {:induction false} EqualByXor<W(!new)>(m: Machine<W>, a: W, b: W)
    requires Group(m) && m.xor(a, b) == m.zero
    ensures a == b
  {
    assert m.xor(a, m.xor(a, b)) == b;
  }

  /**
   * What a code has to supply: `level(c)` bounds how many symbols are needed to hold c, symbols fit
   * in one, a register with room shifts without folding, and a zero symbol keeps a nonzero register
   * nonzero.
   */
  datatype Code<!W> = Code(machine: Machine<W>, fits: (W, nat) -> bool, width: nat)

  ghost predicate Sound<W(!new)>(k: Code<W>) {
    var m := k.machine;
    && Linear(m) && Group(m)
    && k.width >= 1
    && (forall c, n: nat :: k.fits(c, n) && n <= k.width ==> k.fits(c, k.width))
    && (forall c, v, n: nat :: n < k.width && k.fits(c, n) && k.fits(v, 1) ==> k.fits(m.step(c, v), n + 1))
    && (forall c, v, n: nat :: n < k.width && k.fits(c, n) && k.fits(v, 1) && m.step(c, v) == m.zero
          ==> c == m.zero && v == m.zero)
    && (forall c :: k.fits(c, k.width) ==> k.fits(m.step(c, m.zero), k.width))
    && (forall c :: k.fits(c, k.width) && m.step(c, m.zero) == m.zero ==> c == m.zero)
    && (forall u, v :: k.fits(u, 1) && k.fits(v, 1) ==> k.fits(m.xor(u, v), 1))
    && k.fits(m.zero, 0)
  }

  ghost predicate AllSymbols<W>(k: Code<W>, vs: seq<W>) {
    forall i :: 0 <= i < |vs| ==> k.fits(vs[i], 1)
  }

  /** At most `width` symbols are read without folding, so only zeros lead back to zero. */
  lemma {:induction false} ShortStringsSurvive<W(!new)>(k: Code<W>, c: W, n: nat, vs: seq<W>)
    requires Sound(k) && k.fits(c, n) && AllSymbols(k, vs)
    requires n + |vs| <= k.width
    requires Feed(k.machine, c, vs) == k.machine.zero
    ensures c == k.machine.zero
    ensures forall i :: 0 <= i < |vs| ==> vs[i] == k.machine.zero
    decreases |vs|
  {
    if vs != [] {
      ShortStringsSurvive(k, k.machine.step(c, vs[0]), n + 1, vs[1..]);
      assert forall i :: 1 <= i < |vs| ==> vs[i] == vs[1..][i - 1];
    }
  }

  lemma {:induction false} ShortStringsFit<W(!new)>(k: Code<W>, c: W, n: nat, vs: seq<W>)
    requires Sound(k) && k.fits(c, n) && AllSymbols(k, vs)
    requires n + |vs| <= k.width
    ensures k.fits(Feed(k.machine, c, vs), n + |vs|)
    decreases |vs|
  {
    if vs != [] {
      ShortStringsFit(k, k.machine.step(c, vs[0]), n + 1, vs[1..]);
    }
  }

  /** Any number of zero symbols leaves a nonzero register nonzero. */
  lemma {:induction false} ZerosKeep<W(!new)>(k: Code<W>, c: W, vs: seq<W>)
    requires Sound(k) && k.fits(c, k.width)
    requires forall i :: 0 <= i < |vs| ==> vs[i] == k.machine.zero
    requires Feed(k.machine, c, vs) == k.machine.zero
    ensures c == k.machine.zero
  {
    if vs != [] {
      ZerosKeep(k, k.machine.step(c, vs[0]), vs[1..]);
    }
  }

  /** A common tail cannot bring two different registers together. */
  lemma {:induction false} TailKeepsApart<W(!new)>(k: Code<W>, a: W, b: W, tail: seq<W>)
    requires Sound(k) && k.fits(k.machine.xor(a, b), k.width)
    requires Feed(k.machine, a, tail) == Feed(k.machine, b, tail)
    ensures a == b
  {
    var m := k.machine;
    FeedLinear(m, a, b, tail, tail);
    ZerosKeep(k, m.xor(a, b), Diff(m, tail, tail));
    EqualByXor(m, a, b);
  }

  lemma {:induction false} DiffSymbols<W(!new)>(k: Code<W>, xs: seq<W>, ys: seq<W>)
    requires Sound(k) && AllSymbols(k, xs) && AllSymbols(k, ys) && |xs| == |ys|
    ensures AllSymbols(k, Diff(k.machine, xs, ys))
  {
  }

  lemma {:induction false} NoDifference<W(!new)>(m: Machine<W>, xs: seq<W>, ys: seq<W>)
    requires Group(m) && |xs| == |ys|
    requires forall i :: 0 <= i < |xs| ==> Diff(m, xs, ys)[i] == m.zero
    ensures xs == ys
  {
    forall i | 0 <= i < |xs| ensures xs[i] == ys[i] {
      assert m.xor(xs[i], ys[i]) == Diff(m, xs, ys)[i];
      EqualByXor(m, xs[i], ys[i]);
    }
  }

  lemma {:induction false} ShortDifferenceFits<W(!new)>(k: Code<W>, c: W, xs: seq<W>, ys: seq<W>)
    requires Sound(k) && AllSymbols(k, xs) && AllSymbols(k, ys)
    requires |xs| == |ys| <= k.width
    ensures k.fits(k.machine.xor(Feed(k.machine, c, xs), Feed(k.machine, c, ys)), k.width)
  {
    DiffSymbols(k, xs, ys);
    SameStart(k.machine, c, xs, ys);
    ShortStringsFit(k, k.machine.zero, 0, Diff(k.machine, xs, ys));
  }

  lemma {:induction false} ShortDifferenceShows<W(!new)>(k: Code<W>, c: W, xs: seq<W>, ys: seq<W>)
    requires Sound(k) && AllSymbols(k, xs) && AllSymbols(k, ys)
    requires |xs| == |ys| <= k.width
    requires Feed(k.machine, c, xs) == Feed(k.machine, c, ys)
    ensures xs == ys
  {
    DiffSymbols(k, xs, ys);
    SameStart(k.machine, c, xs, ys);
    ShortStringsSurvive(k, k.machine.zero, 0, Diff(k.machine, xs, ys));
    NoDifference(k.machine, xs, ys);
  }

  /**
   * Burst detection: two strings that differ only inside `width` consecutive symbols and leave the
   * same register are the same string.
   */
  lemma {:induction false} BurstDetected<W(!new)>(k: Code<W>, c: W, head: seq<W>, xs: seq<W>, ys: seq<W>, tail: seq<W>)
    requires Sound(k) && AllSymbols(k, xs) && AllSymbols(k, ys)
    requires |xs| == |ys| <= k.width
    requires Feed(k.machine, c, head + xs + tail) == Feed(k.machine, c, head + ys + tail)
    ensures xs == ys
  {
    var m := k.machine;
    var start := Feed(m, c, head);
    FeedAppend(m, c, head + xs, tail);
    FeedAppend(m, c, head, xs);
    FeedAppend(m, c, head + ys, tail);
    FeedAppend(m, c, head, ys);
    ShortDifferenceFits(k, start, xs, ys);
    TailKeepsApart(k, Feed(m, start, xs), Feed(m, start, ys), tail);
    ShortDifferenceShows(k, start, xs, ys);
  }

  /** Replacing trailing zeros by a string changes the register by what that string leaves on its own. */
  lemma {:induction false} ChecksumEffect<W(!new)>(m: Machine<W>, c: W, vs: seq<W>, zeros: seq<W>)
    requires Linear(m) && Group(m)
    requires |vs| == |zeros| && forall i :: 0 <= i < |zeros| ==> zeros[i] == m.zero
    ensures m.xor(Feed(m, c, vs), Feed(m, c, zeros)) == Feed(m, m.zero, vs)
  {
    SameStart(m, c, vs, zeros);
    assert Diff(m, vs, zeros) == vs;
  }
}
