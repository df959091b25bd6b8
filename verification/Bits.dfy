/** Natural numbers as words of bits: or, and, complement and shifts, bit by bit. */
module Bits {
  type byte = b: int | 0 <= b < 256

  function Pow2(k: nat): (p: nat)
    ensures p >= 1
  {
    if k == 0 then 1 else 2 * Pow2(k - 1)
  }

  /** Bitwise or. */
  function BitOr(a: nat, b: nat): (r: nat)
    decreases a + b
  {
    if a == 0 then b else if b == 0 then a
    else (if a % 2 == 1 || b % 2 == 1 then 1 else 0) + 2 * BitOr(a / 2, b / 2)
  }

  /** Or-ing in a value above all bits of `a` is an addition. */
  lemma {:induction false} BitOrDisjoint(a: nat, b: nat, k: nat)
    requires a < Pow2(k)
    ensures BitOr(a, b * Pow2(k)) == a + b * Pow2(k)
    decreases k
  {
    if a == 0 || b == 0 {
    } else {
      var c := b * Pow2(k - 1);
      assert b * Pow2(k) == 2 * c;
      BitOrDisjoint(a / 2, b, k - 1);
    }
  }

  /** Bit `k` of a word. */
  predicate Bit(w: nat, k: nat)
  {
    if k == 0 then w % 2 == 1 else Bit(w / 2, k - 1)
  }

  lemma {:induction false} BitOfOr(a: nat, b: nat, k: nat)
    ensures Bit(BitOr(a, b), k) <==> Bit(a, k) || Bit(b, k)
    decreases k
  {
    if a == 0 { ZeroBits(k); }
    else if b == 0 { ZeroBits(k); }
    else if k > 0 { BitOfOr(a / 2, b / 2, k - 1); }
  }

  lemma {:induction false} ZeroBits(k: nat)
    ensures !Bit(0, k)
  {
    if k > 0 { ZeroBits(k - 1); }
  }

  lemma {:induction false} BitOfPow2(n: nat, k: nat)
    ensures Bit(Pow2(n), k) <==> n == k
    decreases k
  {
    if k > 0 {
      if n == 0 { ZeroBits(k - 1); } else { BitOfPow2(n - 1, k - 1); }
    }
  }

  lemma {:induction false} BitOfOnes(n: nat, k: nat)
    ensures Bit(Pow2(n) - 1, k) <==> k < n
    decreases n
  {
    if n == 0 {
      ZeroBits(k);
    } else if k > 0 {
      assert (Pow2(n) - 1) / 2 == Pow2(n - 1) - 1;
      BitOfOnes(n - 1, k - 1);
    }
  }

  /** A word is determined by its bits. */
  lemma {:induction false} SameBits(a: nat, b: nat)
    requires forall k: nat :: Bit(a, k) <==> Bit(b, k)
    ensures a == b
    decreases a + b
  {
    assert Bit(a, 0) <==> Bit(b, 0);
    if a > 0 || b > 0 {
      forall k: nat ensures Bit(a / 2, k) <==> Bit(b / 2, k) {
        assert Bit(a, k + 1) <==> Bit(b, k + 1);
      }
      SameBits(a / 2, b / 2);
    }
  }

  ghost predicate LowBits(w: nat, n: nat) { forall k: nat :: k < n ==> Bit(w, k) }

  /** The word that has exactly its low `n` bits. */
  lemma LowBitsWord(w: nat, n: nat)
    requires forall k: nat :: k >= n ==> !Bit(w, k)
    ensures w == Pow2(n) - 1 <==> LowBits(w, n)
  {
    hide Pow2, Bit;
    var ones := Pow2(n) - 1;
    forall k: nat ensures Bit(ones, k) <==> k < n { BitOfOnes(n, k); }
    if LowBits(w, n) { SameBits(w, ones); }
  }

  lemma {:induction false} ShiftOnes(n: nat, k: nat)
    requires k <= n
    ensures (Pow2(n) - 1) / Pow2(k) == Pow2(n - k) - 1
    decreases k
  {
    if k > 0 {
      var x, p := Pow2(n) - 1, Pow2(k - 1);
      ShiftOnes(n, k - 1);
      DivTwice(x, p);
    }
  }

  lemma DivTwice(x: nat, p: nat)
    requires p > 0
    ensures x / (2 * p) == x / p / 2
  {
    var q := x / p;
    var r := x % p;
    assert x == q * p + r;
    var h, b := q / 2, q % 2;
    assert q * p == h * (2 * p) + b * p;
    assert 0 <= b * p + r < 2 * p;
    DivUnique(x, 2 * p, h, b * p + r);
  }

  lemma DivUnique(x: nat, d: nat, q: nat, r: nat)
    requires d > 0 && x == q * d + r && r < d
    ensures x / d == q
  {
    var q2 := x / d;
    assert q2 * d <= x < q2 * d + d;
    if q < q2 { MulBound(q + 1, q2, d); }
    if q2 < q { MulBound(q2 + 1, q, d); }
  }

  lemma MulBound(a: nat, b: nat, p: nat)
    requires a <= b
    ensures 0 <= a * p <= b * p
  {}

  /** The low `n` bits of a word: what an n-bit variable keeps of it. */
  function Low(w: nat, n: nat): nat
  {
    if n == 0 then 0 else w % 2 + 2 * Low(w / 2, n - 1)
  }

  lemma {:induction false} LowIsModulo(w: nat, n: nat)
    ensures Low(w, n) == w % Pow2(n)
  {
    if n > 0 {
      LowIsModulo(w / 2, n - 1);
      DoubleModulo(w, Pow2(n - 1));
    }
  }

  lemma DoubleModulo(w: nat, p: nat)
    requires p > 0
    ensures w % (2 * p) == w % 2 + 2 * (w / 2 % p)
  {
    var q, r, b := w / 2 / p, w / 2 % p, w % 2;
    assert w / 2 == q * p + r;
    assert w == q * (2 * p) + (2 * r + b);
    DivUnique(w, 2 * p, q, 2 * r + b);
  }

  lemma {:induction false} BitOfLow(w: nat, n: nat, k: nat)
    ensures Bit(Low(w, n), k) <==> k < n && Bit(w, k)
    decreases n
  {
    if n == 0 { ZeroBits(k); } else if k > 0 { BitOfLow(w / 2, n - 1, k - 1); }
  }

  /** `w << k` on n-bit words. */
  function ShiftLeft(w: nat, k: nat, n: nat): nat
  {
    if k == 0 then w else Low(2 * ShiftLeft(w, k - 1, n), n)
  }

  lemma {:induction false} BitOfShift(w: nat, k: nat, n: nat, j: nat)
    requires forall i: nat :: i >= n ==> !Bit(w, i)
    ensures Bit(ShiftLeft(w, k, n), j) <==> k <= j < n && Bit(w, j - k)
    decreases k
  {
    if k > 0 {
      var x := ShiftLeft(w, k - 1, n);
      BitOfLow(2 * x, n, j);
      if j > 0 {
        assert 2 * x / 2 == x;
        BitOfShift(w, k - 1, n, j - 1);
      }
    }
  }
}
