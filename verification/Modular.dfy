/** Remainders of natural numbers, and the 64-bit words that hold counts. */
module Modular {
  const WORD: nat := 0x1_0000_0000_0000_0000
  const MAX_WORD: nat := WORD - 1

  /** The 64-bit word that holds a count. */
  function Word(x: nat): (w: nat)
    ensures w < WORD
  {
    x % WORD
  }

  lemma WordAdd(a: nat, b: nat)
    ensures Word(a + Word(b)) == Word(a + b)
  {
  }

  lemma WordOfSum(x: nat, y: nat)
    ensures Word(Word(x) + Word(y)) == Word(x + y)
  {
  }

  lemma SmallWord(x: nat)
    requires x < WORD
    ensures Word(x) == x
  {
  }

  lemma EvenWord(x: nat)
    ensures Word(x) % 2 == x % 2
  {
  }

  lemma SameResidue(a: nat, b: nat)
    requires a <= b && b - a < WORD && Word(a) == Word(b)
    ensures a == b
  {
  }

  // ---------- Any modulus ----------

  /** Unsigned difference of two indices. */
  function Sub(modulus: nat, h: nat, t: nat): nat
    requires h < modulus && t < modulus
  {
    (h + modulus - t) % modulus
  }

  lemma MulAtLeast(a: nat, s: nat)
    requires 0 < a
    ensures s <= a * s
  {
  }

  lemma MulGap(a: nat, b: nat, s: nat)
    requires a < b
    ensures a * s + s <= b * s
  {
    var d := b - a;
    MulAtLeast(d, s);
    Distribute(a, d, s);
  }

  lemma Distribute(a: nat, d: nat, s: nat)
    ensures (a + d) * s == a * s + d * s
  {
  }

  lemma DivModUnique(x: nat, s: nat, q: nat, r: nat)
    requires r < s && x == q * s + r
    ensures x / s == q && x % s == r
  {
    var q' := x / s;
    assert x == q' * s + x % s;
    if q' < q {
      MulGap(q', q, s);
    } else if q < q' {
      MulGap(q, q', s);
    }
  }

  lemma DropMultiple(k: nat, s: nat, r: nat)
    requires 0 < s
    ensures (k * s + r) % s == r % s
  {
    assert r == (r / s) * s + r % s;
    assert (k + r / s) * s == k * s + (r / s) * s;
    DivModUnique(k * s + r, s, k + r / s, r % s);
  }

  lemma AddModulus(x: nat, s: nat)
    requires 0 < s
    ensures (x + s) % s == x % s
  {
    DropMultiple(1, s, x);
  }

  lemma MulAssociates(a: nat, q: nat, s: nat)
    ensures a * (q * s) == (a * q) * s
  {
  }

  lemma SmallRemainder(x: nat, s: nat)
    requires x < s
    ensures x % s == x
  {
    DivModUnique(x, s, 0, x);
  }

  lemma SubOfIndices(modulus: nat, n: nat, m: nat)
    requires m <= n < m + modulus
    ensures Sub(modulus, n % modulus, m % modulus) == n - m
  {
    var d, b, r := n - m, m / modulus, m % modulus;
    assert n == b * modulus + (r + d);
    if r + d < modulus {
      DivModUnique(n, modulus, b, r + d);
      AddModulus(d, modulus);
      SmallRemainder(d, modulus);
    } else {
      assert (b + 1) * modulus == b * modulus + modulus;
      DivModUnique(n, modulus, b + 1, r + d - modulus);
      SmallRemainder(d, modulus);
    }
  }

  lemma NextIndex(modulus: nat, n: nat)
    requires 0 < modulus
    ensures (n % modulus + 1) % modulus == (n + 1) % modulus
  {
    assert n + 1 == (n / modulus) * modulus + (n % modulus + 1);
    DropMultiple(n / modulus, modulus, n % modulus + 1);
  }

  lemma RemainderOfRemainder(n: nat, modulus: nat, s: nat)
    requires 0 < s && 0 < modulus && modulus % s == 0
    ensures n % modulus % s == n % s
  {
    Regroup(n, modulus, s, n / modulus, n % modulus, modulus / s);
    DropMultiple(n / modulus * (modulus / s), s, n % modulus);
  }

  lemma Regroup(n: nat, modulus: nat, s: nat, a: nat, r: nat, q: nat)
    requires n == a * modulus + r && modulus == q * s
    ensures n == (a * q) * s + r
  {
    MulAssociates(a, q, s);
  }

  lemma DistinctSlots(slots: nat, k: nat, n: nat)
    requires k < n < k + slots
    ensures k % slots != n % slots
  {
    SubOfIndices(slots, n, k);
    if k % slots == n % slots {
      AddModulus(0, slots);
    }
  }

  // ---------- Words that wrap ----------

  /** Without 2^64 - 1 on the way words count up like numbers; with it they fall. */
  lemma {:induction false} NoWrapBetween(a: nat, b: nat)
    requires a <= b && forall t :: a <= t < b ==> Word(t) != MAX_WORD
    ensures Word(b) == Word(a) + (b - a)
  {
    if a < b {
      NoWrapBetween(a, b - 1);
      WordStep(b - 1);
    }
  }

  lemma WordStep(x: nat)
    ensures Word(x + 1) == if Word(x) == MAX_WORD then 0 else Word(x) + 1
  {
  }

  lemma WrapBetween(a: nat, t: nat, b: nat)
    requires a <= t < b < a + WORD && Word(t) == MAX_WORD
    ensures Word(b) < Word(a)
  {
    var q := a / WORD;
    assert a == q * WORD + Word(a);
    DivModUnique(t, WORD, t / WORD, MAX_WORD);
    SameTurn(q, t / WORD, a, t);
    DivModUnique(b, WORD, q + 1, b - (q + 1) * WORD);
  }

  lemma SameTurn(q: nat, q': nat, a: nat, t: nat)
    requires q * WORD <= a < q * WORD + WORD && a <= t < a + WORD && t == q' * WORD + MAX_WORD
    ensures q' == q
  {
  }
}
