/** Lane-index arithmetic: powers of two, bit extraction and exclusive-or on
    natural numbers.  Bit extraction is the `get_bit(id, b)` helper of the
    warp sort, `(id / 2^b) % 2`; it is computed by repeated halving so that
    the proofs about lane blocks stay in linear arithmetic. */
module Bits {

  function Pow2(n: nat): (r: nat)
    ensures r >= 1
  {
    if n == 0 then 1 else 2 * Pow2(n - 1)
  }

  /** Floor of the base-2 logarithm (0 for 0 and 1). */
  function Log2(w: nat): nat
  {
    if w <= 1 then 0 else 1 + Log2(w / 2)
  }

  /** `detail::is_power_of_two`: w is 2^n for some n. */
  predicate IsPow2(w: nat)
  {
    w >= 1 && Pow2(Log2(w)) == w
  }

  /** x / 2^t, computed as t halvings. */
  function Shr(x: nat, t: nat): nat
  {
    if t == 0 then x else Shr(x, t - 1) / 2
  }

  /** `get_bit(x, t)`: bit t of x. */
  function Bit(x: nat, t: nat): nat
  {
    Shr(x, t) % 2
  }

  /** Bitwise exclusive-or of two naturals. */
  function Xor(a: nat, b: nat): nat
    decreases a + b
  {
    if a == 0 && b == 0 then 0
    else 2 * Xor(a / 2, b / 2) + (if a % 2 == b % 2 then 0 else 1)
  }

  lemma DivUnique(x: nat, d: nat, q: nat, r: nat)
    requires d > 0 && r < d && x == q * d + r
    ensures x / d == q && x % d == r
  {
    var q0, r0 := x / d, x % d;
    assert x == q0 * d + r0;
    assert (q - q0) * d == r0 - r;
    if q > q0 {
      MulAtLeast(q - q0, d);
    } else if q < q0 {
      MulAtLeast(q0 - q, d);
    }
  }

  lemma {:induction false} MulAtLeast(k: int, d: nat)
    requires k >= 1
    ensures k * d >= d
  {
    if k > 1 {
      MulAtLeast(k - 1, d);
      assert k * d == (k - 1) * d + d;
    }
  }

  /** Shr is division by a power of two, so `Bit` is `get_bit`. */
  lemma {:induction false} ShrIsDiv(x: nat, t: nat)
    ensures Shr(x, t) == x / Pow2(t)
  {
    if t > 0 {
      ShrIsDiv(x, t - 1);
      DivDouble(x, Pow2(t - 1));
    }
  }

  lemma DivDouble(x: nat, p: nat)
    requires p > 0
    ensures (x / p) / 2 == x / (2 * p)
  {
    var q, r := x / p, x % p;
    var q2, b := q / 2, q % 2;
    assert x == q * p + r;
    assert q == 2 * q2 + b;
    assert q * p == q2 * (2 * p) + b * p by {
      assert (2 * q2 + b) * p == (2 * q2) * p + b * p;
      assert (2 * q2) * p == q2 * (2 * p);
    }
    assert b * p + r < 2 * p by {
      if b == 1 { assert b * p == p; } else { assert b * p == 0; }
    }
    DivUnique(x, 2 * p, q2, b * p + r);
  }

  lemma {:induction false} ShrHalf(x: nat, t: nat)
    ensures Shr(x / 2, t) == Shr(x, t + 1)
  {
    if t > 0 {
      ShrHalf(x, t - 1);
    }
  }

  lemma {:induction false} ShrMono(x: nat, y: nat, t: nat)
    requires x <= y
    ensures Shr(x, t) <= Shr(y, t)
  {
    if t > 0 {
      ShrMono(x, y, t - 1);
    }
  }

  /** A lane between two lanes of one block of size 2^t lies in that block. */
  lemma ShrBetween(a: nat, m: nat, c: nat, t: nat)
    requires a <= m <= c && Shr(a, t) == Shr(c, t)
    ensures Shr(m, t) == Shr(a, t)
  {
    ShrMono(a, m, t);
    ShrMono(m, c, t);
  }

  /** Lanes that share a block of size 2^t0 share every larger block. */
  lemma {:induction false} ShrAbove(a: nat, b: nat, t0: nat, t: nat)
    requires t0 <= t && Shr(a, t0) == Shr(b, t0)
    ensures Shr(a, t) == Shr(b, t)
  {
    if t > t0 {
      ShrAbove(a, b, t0, t - 1);
    }
  }

  lemma {:induction false} ShrAddMul(x: nat, c: nat, j: nat)
    ensures Shr(x + c * Pow2(j), j) == Shr(x, j) + c
    decreases j
  {
    if j > 0 {
      assert c * Pow2(j) == (2 * c) * Pow2(j - 1);
      ShrAddMul(x, 2 * c, j - 1);
    }
  }

  /** x lies in the first block of size 2^n exactly when x < 2^n. */
  lemma ShrZero(x: nat, n: nat)
    ensures Shr(x, n) == 0 <==> x < Pow2(n)
  {
    ShrIsDiv(x, n);
    if x < Pow2(n) {
      DivUnique(x, Pow2(n), 0, x);
    } else {
      DivUnique(x, Pow2(n), x / Pow2(n), x % Pow2(n));
    }
  }

  lemma {:induction false} XorZero(a: nat)
    ensures Xor(a, 0) == a
  {
    if a > 0 {
      XorZero(a / 2);
    }
  }

  /** Exclusive-or with 2^j sets bit j when it is clear and clears it when set. */
  lemma {:induction false} XorPow2(x: nat, j: nat)
    ensures Xor(x, Pow2(j)) == if Bit(x, j) == 0 then x + Pow2(j) else x - Pow2(j)
  {
    if j == 0 {
      XorZero(x / 2);
    } else {
      XorPow2(x / 2, j - 1);
      ShrHalf(x, j - 1);
    }
  }

  lemma {:induction false} Pow2Mono(a: nat, b: nat)
    requires a < b
    ensures Pow2(a) < Pow2(b)
  {
    if a < b - 1 {
      Pow2Mono(a, b - 1);
    }
  }

  /** The lane `x XOR 2^j`: bit j flipped, every block of size above 2^j unchanged. */
  lemma FlipBit(x: nat, j: nat)
    ensures Bit(Xor(x, Pow2(j)), j) == 1 - Bit(x, j)
    ensures Shr(Xor(x, Pow2(j)), j) == if Bit(x, j) == 0 then Shr(x, j) + 1 else Shr(x, j) - 1
    ensures forall t :: j < t ==> Shr(Xor(x, Pow2(j)), t) == Shr(x, t)
    ensures Xor(Xor(x, Pow2(j)), Pow2(j)) == x
  {
    var y := Xor(x, Pow2(j));
    FlipBitLow(x, j);
    forall t | j < t ensures Shr(y, t) == Shr(x, t) {
      ShrAbove(y, x, j + 1, t);
    }
    XorPow2(x, j);
    XorPow2(y, j);
  }

  /** Bit j of `x XOR 2^j` and the blocks of size 2^j and 2^(j+1) holding it. */
  lemma FlipBitLow(x: nat, j: nat)
    ensures Shr(Xor(x, Pow2(j)), j) == if Bit(x, j) == 0 then Shr(x, j) + 1 else Shr(x, j) - 1
    ensures Bit(Xor(x, Pow2(j)), j) == 1 - Bit(x, j)
    ensures Shr(Xor(x, Pow2(j)), j + 1) == Shr(x, j + 1)
  {
    var y := Xor(x, Pow2(j));
    XorPow2(x, j);
    if Bit(x, j) == 0 {
      assert y == x + 1 * Pow2(j);
      ShrAddMul(x, 1, j);
    } else {
      assert x == y + 1 * Pow2(j);
      ShrAddMul(y, 1, j);
    }
    NeighbourHalves(Shr(x, j), Shr(y, j));
  }

  /** Two neighbours s and s +- 1, the smaller even, have opposite parity and the same half. */
  lemma NeighbourHalves(s: nat, s1: nat)
    requires (s % 2 == 0 && s1 == s + 1) || (s % 2 == 1 && s1 == s - 1)
    ensures s1 % 2 == 1 - s % 2 && s1 / 2 == s / 2
  {
  }
}
