/** Modular arithmetic shared by the models: slots of a circular buffer and
    fixed-width machine words. */
module Arith {

  /** The number of values of a 64-bit word. */
  const WORD: nat := 0x1_0000_0000_0000_0000

  /** The buffer index that position `p` uses in a buffer of `n` cells. */
  function Slot(p: nat, n: nat): (i: nat)
    requires n > 0
    ensures i < n
  {
    p % n
  }

  /** A multiple of `n` strictly between `-n` and `n` is zero. */
  lemma SmallMultiple(n: int, k: int)
    requires n > 0 && -n < n * k < n
    ensures k == 0
  {
  }

  lemma DivMod(x: int, n: int)
    requires n > 0
    ensures x == n * (x / n) + x % n
  {
  }

  /** Quotient and remainder are unique. */
  lemma ModUnique(x: int, n: int, a: int, b: int)
    requires n > 0 && x == n * a + b && 0 <= b < n
    ensures x % n == b && x / n == a
  {
    var c, d := x / n, x % n;
    DivMod(x, n);
    assert n * (a - c) == n * a - n * c;
    SmallMultiple(n, a - c);
  }

  /** Integers less than `n` apart with the same remainder are equal. */
  lemma ModInjective(p: int, q: int, n: int)
    requires n > 0 && p % n == q % n && p - n < q < p + n
    ensures p == q
  {
    DivMod(p, n);
    DivMod(q, n);
    var a, b := p / n, q / n;
    assert n * (a - b) == n * a - n * b;
    SmallMultiple(n, a - b);
  }

  /** One lap: within `[lo, lo + n)` different positions use different slots. */
  lemma WindowInjective(lo: nat, n: nat)
    requires n > 0
    ensures forall p: nat, q: nat {:trigger Slot(p, n), Slot(q, n)} ::
              lo <= p < lo + n && lo <= q < lo + n && Slot(p, n) == Slot(q, n) ==> p == q
  {
    forall p: nat, q: nat | lo <= p < lo + n && lo <= q < lo + n && Slot(p, n) == Slot(q, n)
      ensures p == q
    {
      ModInjective(p, q, n);
    }
  }

  /** A position and the one a lap later share a slot. */
  lemma SlotNextLap(p: nat, n: nat)
    requires n > 0
    ensures Slot(p + n, n) == Slot(p, n)
  {
    DivMod(p, n);
    assert n * (p / n + 1) == n * (p / n) + n;
    ModUnique(p + n, n, p / n + 1, p % n);
  }

  function Pow2(k: nat): (r: nat)
    ensures r >= 1
  {
    if k == 0 then 1 else 2 * Pow2(k - 1)
  }

  /** Bitwise conjunction of naturals. */
  function And(a: nat, b: nat): (r: nat)
    ensures r <= b
  {
    if a == 0 || b == 0 then 0 else 2 * And(a / 2, b / 2) + (a % 2) * (b % 2)
  }

  lemma ModHalf(x: nat, m: nat)
    requires m > 0
    ensures x % (2 * m) == 2 * (x / 2 % m) + x % 2
  {
    DivMod(x / 2, m);
    var q, r := x / 2 / m, x / 2 % m;
    assert 2 * (m * q) == (2 * m) * q;
    ModUnique(x, 2 * m, q, 2 * r + x % 2);
  }

  lemma AndOdd(x: nat, m: nat)
    requires x > 0 && m > 0
    ensures And(x, 2 * m - 1) == 2 * And(x / 2, m - 1) + x % 2
  {
    assert (2 * m - 1) / 2 == m - 1 && (2 * m - 1) % 2 == 1;
  }

  /** Masking with a power of two minus one is the remainder. */
  lemma {:induction false} MaskIsMod(x: nat, k: nat)
    ensures And(x, Pow2(k) - 1) == x % Pow2(k)
  {
    if k == 0 {
      ModUnique(x, 1, x, 0);
    } else if x == 0 {
      ModUnique(0, Pow2(k), 0, 0);
    } else {
      MaskIsMod(x / 2, k - 1);
      MaskStep(x, Pow2(k - 1), Pow2(k));
    }
  }

  lemma MaskStep(x: nat, m: nat, p: nat)
    requires x > 0 && m > 0 && p == 2 * m && And(x / 2, m - 1) == x / 2 % m
    ensures And(x, p - 1) == x % p
  {
    ModHalf(x, m);
    AndOdd(x, m);
  }
}
