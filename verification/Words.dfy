/** Bitwise masks on machine words, bit by bit. */
module Words {

  function Pow2(n: nat): (p: nat)
    ensures p >= 1
  {
    if n == 0 then 1 else 2 * Pow2(n - 1)
  }

  /** Bitwise and of the low `bits` bits. */
  function And(a: nat, b: nat, bits: nat): nat
    decreases a, b, bits
  {
    if bits == 0 then 0
    else 2 * And(a / 2, b / 2, bits - 1) + (if a % 2 == 1 && b % 2 == 1 then 1 else 0)
  }

  /** The bits above the low `k`, and the low `k` bits. */
  function High(a: nat, k: nat): nat
    decreases k
  {
    if k == 0 then a else High(a / 2, k - 1)
  }

  function Low(a: nat, k: nat): (low: nat)
    ensures low < Pow2(k)
    decreases k
  {
    if k == 0 then 0 else 2 * Low(a / 2, k - 1) + a % 2
  }

  /** Shifting left by `k` bits. */
  function Shift(q: nat, k: nat): nat {
    if k == 0 then q else 2 * Shift(q, k - 1)
  }

  /** The first word of the block of 2^k around `a`: its low `k` bits cleared. */
  function Block(a: nat, k: nat): nat {
    Shift(High(a, k), k)
  }

  lemma {:induction false} Pow2Monotone(m: nat, n: nat)
    requires m <= n
    ensures Pow2(m) <= Pow2(n)
    decreases n
  {
    if m < n {
      Pow2Monotone(m, n - 1);
    }
  }

  lemma Pow2Values()
    ensures Pow2(2) == 4 && Pow2(8) == 256 && Pow2(32) == 0x1_0000_0000
  {
    assert Pow2(4) == 16 && Pow2(8) == 16 * Pow2(4);
    assert Pow2(12) == 16 * Pow2(8) && Pow2(16) == 16 * Pow2(12) && Pow2(20) == 16 * Pow2(16);
    assert Pow2(24) == 16 * Pow2(20) && Pow2(28) == 16 * Pow2(24) && Pow2(32) == 16 * Pow2(28);
  }

  /** A word is its block plus its low bits. */
  lemma {:induction false} BlockPlusLow(a: nat, k: nat)
    ensures a == Block(a, k) + Low(a, k)
    decreases k
  {
    if k > 0 {
      BlockPlusLow(a / 2, k - 1);
    }
  }

  lemma {:induction false} ShiftIsProduct(q: nat, k: nat)
    ensures Shift(q, k) == q * Pow2(k)
  {
    if k > 0 {
      ShiftIsProduct(q, k - 1);
      assert 2 * (q * Pow2(k - 1)) == q * (2 * Pow2(k - 1));
    }
  }

  /** The block is the multiple of 2^k at or just below the word. */
  lemma BlockExactly(a: nat, k: nat)
    ensures exists q: nat :: Block(a, k) == q * Pow2(k)
    ensures Block(a, k) <= a < Block(a, k) + Pow2(k)
  {
    BlockPlusLow(a, k);
    ShiftIsProduct(High(a, k), k);
  }

  lemma {:induction false} ShiftNext(q: nat, k: nat)
    ensures Shift(q + 1, k) == Shift(q, k) + Pow2(k)
  {
    if k > 0 {
      ShiftNext(q, k - 1);
    }
  }

  lemma {:induction false} ShiftMonotone(p: nat, q: nat, k: nat)
    ensures p <= q ==> Shift(p, k) <= Shift(q, k)
    ensures p < q ==> Shift(p, k) + Pow2(k) <= Shift(q, k)
  {
    if k > 0 {
      ShiftMonotone(p, q, k - 1);
    }
  }

  lemma {:induction false} ShiftPow2(n: nat, k: nat)
    ensures Shift(Pow2(n), k) == Pow2(n + k)
  {
    if k > 0 {
      ShiftPow2(n, k - 1);
    }
  }

  lemma {:induction false} HighBound(a: nat, k: nat, bits: nat)
    requires k <= bits && a < Pow2(bits)
    ensures High(a, k) < Pow2(bits - k)
    decreases k
  {
    if k > 0 {
      HighBound(a / 2, k - 1, bits - 1);
    }
  }

  /** Dropping bits in two goes. */
  lemma {:induction false} HighTwice(a: nat, j: nat, k: nat)
    ensures High(a, j + k) == High(High(a, j), k)
    decreases j
  {
    if j > 0 {
      HighTwice(a / 2, j - 1, k);
    }
  }

  lemma {:induction false} AndZero(a: nat, bits: nat)
    ensures And(a, 0, bits) == 0
    decreases bits
  {
    if bits > 0 {
      AndZero(a / 2, bits - 1);
    }
  }

  /** Masking with the low `k` bits leaves them. */
  lemma {:induction false} AndLowBits(a: nat, k: nat, bits: nat)
    requires k <= bits
    ensures And(a, Pow2(k) - 1, bits) == Low(a, k)
    decreases bits
  {
    if k == 0 {
      AndZero(a, bits);
    } else {
      assert (Pow2(k) - 1) / 2 == Pow2(k - 1) - 1 && (Pow2(k) - 1) % 2 == 1;
      AndLowBits(a / 2, k - 1, bits - 1);
    }
  }

  lemma {:induction false} AndAllBits(a: nat, bits: nat)
    requires a < Pow2(bits)
    ensures And(a, Pow2(bits) - 1, bits) == a
    decreases bits
  {
    if bits > 0 {
      assert (Pow2(bits) - 1) / 2 == Pow2(bits - 1) - 1 && (Pow2(bits) - 1) % 2 == 1;
      AndAllBits(a / 2, bits - 1);
    }
  }

  /** Masking with all but the low `k` of `bits` bits clears them. */
  lemma {:induction false} AndHighBits(a: nat, k: nat, bits: nat)
    requires k <= bits && a < Pow2(bits)
    ensures Pow2(k) <= Pow2(bits) && And(a, Pow2(bits) - Pow2(k), bits) == Block(a, k)
    decreases bits
  {
    Pow2Monotone(k, bits);
    if k == 0 {
      AndAllBits(a, bits);
    } else {
      Pow2Monotone(k - 1, bits - 1);
      var half: nat := Pow2(bits - 1) - Pow2(k - 1);
      assert Pow2(bits) - Pow2(k) == 2 * half;
      AndHighBits(a / 2, k - 1, bits - 1);
    }
  }

  /** Two words agree above the low `k` bits exactly when they lie in the same block. */
  lemma SameBlock(a: nat, b: nat, k: nat)
    ensures Block(a, k) == Block(b, k) <==> High(a, k) == High(b, k)
  {
    ShiftMonotone(High(a, k), High(b, k), k);
    ShiftMonotone(High(b, k), High(a, k), k);
  }

  /** Words in the same block are in the same larger block. */
  lemma LargerBlock(a: nat, b: nat, k: nat, larger: nat)
    requires k <= larger && Block(a, k) == Block(b, k)
    ensures Block(a, larger) == Block(b, larger)
  {
    SameBlock(a, b, k);
    HighTwice(a, k, larger - k);
    HighTwice(b, k, larger - k);
  }

  /** The block around a word lies within the word's range. */
  lemma BlockInRange(a: nat, k: nat, bits: nat)
    requires k <= bits && a < Pow2(bits)
    ensures Block(a, k) + Pow2(k) <= Pow2(bits)
  {
    HighBound(a, k, bits);
    ShiftMonotone(High(a, k), Pow2(bits - k), k);
    ShiftPow2(bits - k, k);
  }

  /** Strictly inside a block: the same high bits, low bits neither all zero nor all one. */
  lemma InsideBlock(x: nat, a: nat, k: nat)
    ensures Block(a, k) < x < Block(a, k) + Pow2(k) - 1
            <==> Block(x, k) == Block(a, k) && Low(x, k) != 0 && Low(x, k) != Pow2(k) - 1
  {
    BlockPlusLow(x, k);
    ShiftMonotone(High(a, k), High(x, k), k);
    ShiftMonotone(High(x, k), High(a, k), k);
  }
}
