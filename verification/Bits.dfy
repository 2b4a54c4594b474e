/** Bitwise exclusive or on natural numbers, and how it meets shifts and masks. */
module Bits {
  import opened Positional

  function Xor(a: nat, b: nat): (r: nat)
    decreases a
  {
    if a == 0 then b else (if a % 2 == b % 2 then 0 else 1) + 2 * Xor(a / 2, b / 2)
  }

  lemma {:induction false} XorHalves(a: nat, b: nat)
    ensures Xor(a, b) % 2 == if a % 2 == b % 2 then 0 else 1
    ensures Xor(a, b) / 2 == Xor(a / 2, b / 2)
  {
  }

  lemma {:induction false} XorZero(a: nat)
    ensures Xor(a, 0) == a
  {
    if a > 0 {
      XorZero(a / 2);
    }
  }

  lemma {:induction false} XorSelf(a: nat)
    ensures Xor(a, a) == 0
  {
    if a > 0 {
      XorSelf(a / 2);
    }
  }

  lemma {:induction false} XorCommutes(a: nat, b: nat)
    ensures Xor(a, b) == Xor(b, a)
  {
    if a == 0 {
      XorZero(b);
    } else if b > 0 {
      XorCommutes(a / 2, b / 2);
    } else {
      XorZero(a);
    }
  }

  lemma {:induction false} XorAssociates(a: nat, b: nat, c: nat)
    ensures Xor(Xor(a, b), c) == Xor(a, Xor(b, c))
    decreases a + b + c
  {
    if a > 0 {
      XorAssociates(a / 2, b / 2, c / 2);
      XorHalves(a, b);
      XorHalves(b, c);
      XorHalves(Xor(a, b), c);
      XorHalves(a, Xor(b, c));
      SameHalves(Xor(Xor(a, b), c), Xor(a, Xor(b, c)));
    }
  }

  lemma {:induction false} SameHalves(m: nat, n: nat)
    requires m % 2 == n % 2 && m / 2 == n / 2
    ensures m == n
  {
  }

  lemma {:induction false} XorOfHalves(p: nat, a: nat, q: nat, b: nat)
    requires p < 2 && q < 2
    ensures Xor(p + 2 * a, q + 2 * b) == (if p == q then 0 else 1) + 2 * Xor(a, b)
  {
    XorHalves(p + 2 * a, q + 2 * b);
    assert (p + 2 * a) % 2 == p && (p + 2 * a) / 2 == a;
    assert (q + 2 * b) % 2 == q && (q + 2 * b) / 2 == b;
  }

  lemma {:induction false} XorSwaps(a: nat, b: nat, c: nat, d: nat)
    ensures Xor(Xor(a, b), Xor(c, d)) == Xor(Xor(a, c), Xor(b, d))
  {
    XorAssociates(a, b, Xor(c, d));
    XorAssociates(b, c, d);
    XorCommutes(b, c);
    XorAssociates(c, b, d);
    XorAssociates(a, c, Xor(b, d));
  }

  lemma {:induction false} XorCancels(a: nat, b: nat)
    ensures Xor(a, Xor(a, b)) == b
  {
    XorAssociates(a, a, b);
    XorSelf(a);
  }

  /** The bits of n from position k up, and those below k. */
  function High(n: nat, k: nat): nat
    decreases k
  {
    if k == 0 then n else High(n / 2, k - 1)
  }

  function Low(n: nat, k: nat): nat
    decreases k
  {
    if k == 0 then 0 else n % 2 + 2 * Low(n / 2, k - 1)
  }

  lemma {:induction false} HighLow(n: nat, k: nat)
    ensures Low(n, k) < Pow(2, k)
    ensures n == High(n, k) * Pow(2, k) + Low(n, k)
    decreases k
  {
    if k > 0 {
      HighLow(n / 2, k - 1);
      Recombine(n, n / 2, n % 2, High(n, k), Pow(2, k - 1), Low(n / 2, k - 1));
    }
  }

  lemma {:induction false} Recombine(n: int, half: int, bit: int, h: int, p: int, l: int)
    requires n == 2 * half + bit && half == h * p + l
    ensures n == h * (2 * p) + (bit + 2 * l)
  {
    assert h * (2 * p) == 2 * (h * p);
  }

  /** High and Low are the source's shifts and masks. */
  lemma {:induction false} HighLowAreDivMod(n: nat, k: nat)
    ensures High(n, k) == n / Pow(2, k) && Low(n, k) == n % Pow(2, k)
  {
    HighLow(n, k);
    DivModUnique(n, Pow(2, k), High(n, k), Low(n, k));
  }

  lemma {:induction false} HighLowOf(n: nat, k: nat, h: nat, l: nat)
    requires l < Pow(2, k) && n == h * Pow(2, k) + l
    ensures High(n, k) == h && Low(n, k) == l
  {
    HighLowAreDivMod(n, k);
    DivModUnique(n, Pow(2, k), h, l);
  }

  /** Exclusive or works separately on the bits above and below position k. */
  lemma {:induction false} XorSplits(a: nat, b: nat, k: nat)
    ensures Low(Xor(a, b), k) == Xor(Low(a, k), Low(b, k))
    ensures High(Xor(a, b), k) == Xor(High(a, k), High(b, k))
    decreases k
  {
    if k > 0 {
      XorHalves(a, b);
      XorSplits(a / 2, b / 2, k - 1);
      assert Low(Xor(a, b), k) == Xor(a, b) % 2 + 2 * Xor(Low(a / 2, k - 1), Low(b / 2, k - 1));
      XorOfHalves(a % 2, Low(a / 2, k - 1), b % 2, Low(b / 2, k - 1));
    }
  }

  /** A shifted number and one below the shift share no bits, so combining them is addition. */
  lemma {:induction false} XorDisjoint(a: nat, v: nat, k: nat)
    requires v < Pow(2, k)
    ensures Xor(a * Pow(2, k), v) == a * Pow(2, k) + v
  {
    XorSplits(a * Pow(2, k), v, k);
    HighLowOf(a * Pow(2, k), k, a, 0);
    HighLowOf(v, k, 0, v);
    XorZero(a);
    HighLow(Xor(a * Pow(2, k), v), k);
  }

  lemma {:induction false} XorShifted(a: nat, b: nat, k: nat)
    ensures Xor(a * Pow(2, k), b * Pow(2, k)) == Xor(a, b) * Pow(2, k)
  {
    XorSplits(a * Pow(2, k), b * Pow(2, k), k);
    HighLowOf(a * Pow(2, k), k, a, 0);
    HighLowOf(b * Pow(2, k), k, b, 0);
    HighLow(Xor(a * Pow(2, k), b * Pow(2, k)), k);
  }

  lemma {:induction false} XorBelow(a: nat, b: nat, k: nat)
    requires a < Pow(2, k) && b < Pow(2, k)
    ensures Xor(a, b) < Pow(2, k)
  {
    XorSplits(a, b, k);
    HighLowOf(a, k, 0, a);
    HighLowOf(b, k, 0, b);
    HighLow(Xor(a, b), k);
  }
}
