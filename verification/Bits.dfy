/**
 Unsigned machine words as naturals: powers of two, single bits, bitwise or, and the few
 facts about them that shifting, masking code relies on.
 */
module Bits {
  function Pow2(n: nat): (p: nat)
    ensures p >= 1
  {
    if n == 0 then 1 else 2 * Pow2(n - 1)
  }

  /** x << k, in unbounded width. */
  function Shl(x: nat, k: nat): nat {
    x * Pow2(k)
  }

  predicate Bit(a: nat, i: nat) {
    a / Pow2(i) % 2 == 1
  }

  function Or(a: nat, b: nat): (c: nat)
    ensures a == 0 ==> c == b
    ensures b == 0 ==> c == a
    decreases a + b
  {
    if a == 0 then b else if b == 0 then a
    else (if a % 2 == 1 || b % 2 == 1 then 1 else 0) + 2 * Or(a / 2, b / 2)
  }

  lemma {:induction false} Pow2Adds(i: nat, j: nat)
    ensures Pow2(i + j) == Pow2(i) * Pow2(j)
  {
    if i > 0 {
      Pow2Adds(i - 1, j);
    }
  }

  lemma {:induction false} Pow2Monotone(i: nat, j: nat)
    requires i <= j
    ensures Pow2(i) <= Pow2(j)
    ensures i < j ==> 2 * Pow2(i) <= Pow2(j)
    decreases j
  {
    if i < j {
      Pow2Monotone(i, j - 1);
    }
  }

  lemma ProductGrows(m: nat, d: int)
    ensures d >= 1 ==> m * d >= m
    ensures d <= -1 ==> m * d + m <= 0
  {
    if d >= 1 {
      assert m * d == m + m * (d - 1);
    } else if d <= -1 {
      assert m * d + m == m * (d + 1);
    }
  }

  lemma Quotient(a: nat, m: nat, q: nat, r: nat)
    requires m > 0 && r < m && a == m * q + r
    ensures a / m == q && a % m == r
  {
    var d := a / m - q;
    assert m * d == m * (a / m) - m * q;
    ProductGrows(m, d);
  }

  lemma HalfFirst(a: nat, c: nat)
    requires c > 0
    ensures a / (2 * c) == (a / 2) / c
  {
    var q, r := a / 2 / c, a / 2 % c;
    assert (2 * c) * q == 2 * (c * q);
    Quotient(a, 2 * c, q, 2 * r + a % 2);
  }

  lemma Halves(a: nat, i: nat)
    requires i > 0
    ensures a / Pow2(i) == (a / 2) / Pow2(i - 1)
  {
    HalfFirst(a, Pow2(i - 1));
  }

  lemma {:induction false} BitOfOr(a: nat, b: nat, i: nat)
    ensures Bit(Or(a, b), i) <==> Bit(a, i) || Bit(b, i)
    decreases i
  {
    if a != 0 && b != 0 {
      var c := Or(a, b);
      assert c / 2 == Or(a / 2, b / 2) && (c % 2 == 1 <==> a % 2 == 1 || b % 2 == 1);
      if i > 0 {
        hide Or, Pow2;
        Halves(a, i);
        Halves(b, i);
        Halves(c, i);
        BitOfOr(a / 2, b / 2, i - 1);
      }
    } else {
      ZeroBits(i);
    }
  }

  lemma ZeroBits(i: nat)
    ensures !Bit(0, i)
  {
  }

  lemma {:induction false} OrBound(a: nat, b: nat, n: nat)
    requires a < Pow2(n) && b < Pow2(n)
    ensures Or(a, b) < Pow2(n)
    decreases n
  {
    if a != 0 && b != 0 {
      OrBound(a / 2, b / 2, n - 1);
    }
  }

  /** Or of disjoint words is their sum. */
  lemma {:induction false} OrAdds(a: nat, c: nat, k: nat)
    requires a < Pow2(k)
    ensures Or(a, Shl(c, k)) == a + Shl(c, k)
    decreases k
  {
    if a != 0 && c != 0 {
      assert Shl(c, k) == 2 * Shl(c, k - 1);
      OrAdds(a / 2, c, k - 1);
    }
  }

  lemma {:induction false} SingleBit(i: nat, j: nat)
    ensures Bit(Pow2(i), j) <==> i == j
    decreases j
  {
    if j > 0 {
      Halves(Pow2(i), j);
      if i > 0 {
        SingleBit(i - 1, j - 1);
      } else {
        ZeroBits(j - 1);
      }
    }
  }

  /** A word below 2^n with all n bits set is 2^n - 1, and only that one. */
  lemma {:induction false} AllOnes(w: nat, n: nat)
    requires w < Pow2(n)
    ensures w == Pow2(n) - 1 <==> forall i: nat :: i < n ==> Bit(w, i)
    decreases n
  {
    if n > 0 {
      AllOnes(w / 2, n - 1);
      forall i: nat | 0 < i < n ensures Bit(w, i) <==> Bit(w / 2, i - 1) {
        Halves(w, i);
      }
      if forall i: nat :: i < n ==> Bit(w, i) {
        assert Bit(w, 0);
        forall i: nat | i < n - 1 ensures Bit(w / 2, i) {
          assert Bit(w, i + 1);
        }
      } else if w == Pow2(n) - 1 {
        assert w / 2 == Pow2(n - 1) - 1;
        assert Bit(w, 0);
      }
    }
  }

  /** A word without bits from n up is below 2^n. */
  lemma {:induction false} LowWord(w: nat, n: nat, m: nat)
    requires n <= m && w < Pow2(m) && forall j | n <= j < m :: !Bit(w, j)
    ensures w < Pow2(n)
    decreases m
  {
    if n < m {
      assert !Bit(w, m - 1);
      if w >= Pow2(m - 1) {
        Quotient(w, Pow2(m - 1), 1, w - Pow2(m - 1));
      }
      LowWord(w, n, m - 1);
    }
  }

  /** All ones shifted right leave all ones. */
  lemma ShiftedOnes(n: nat, m: nat)
    requires n <= m
    ensures (Pow2(m) - 1) / Pow2(m - n) == Pow2(n) - 1
  {
    Pow2Adds(m - n, n);
    OneLess(Pow2(m - n), Pow2(n));
  }

  lemma OneLess(p: nat, q: nat)
    requires p > 0 && q > 0
    ensures p * q >= 1 && (p * q - 1) / p == q - 1
  {
    assert p * (q - 1) == p * q - p;
    ProductOrder(p, 0, q - 1);
    Quotient(p * q - 1, p, q - 1, p - 1);
  }

  /** The bits from s, inclusive, to e, exclusive: ~((1 << s) - 1) & ((1 << e) - 1). */
  function Range(s: nat, e: nat): (r: nat)
    requires s <= e
    ensures r < Pow2(e)
  {
    Pow2Monotone(s, e);
    Pow2(e) - Pow2(s)
  }

  lemma {:induction false} BitOfRange(s: nat, e: nat, j: nat)
    requires s <= e
    ensures Bit(Range(s, e), j) <==> s <= j < e
    decreases j
  {
    if j > 0 && e > 0 {
      Halves(Range(s, e), j);
      BitOfRange(if s > 0 then s - 1 else 0, e - 1, j - 1);
    } else if j > 0 {
      ZeroBits(j);
    }
  }

  lemma {:induction false} BitOfShl(a: nat, k: nat, i: nat)
    ensures Bit(Shl(a, k), i) <==> i >= k && Bit(a, i - k)
    decreases k
  {
    if k > 0 {
      assert Shl(a, k) == 2 * Shl(a, k - 1);
      if i > 0 {
        Halves(Shl(a, k), i);
        BitOfShl(a, k - 1, i - 1);
      }
    }
  }

  /** Cutting a word to n bits keeps those bits. */
  lemma {:induction false} BitOfLow(a: nat, n: nat, i: nat)
    requires i < n
    ensures Bit(a % Pow2(n), i) <==> Bit(a, i)
    decreases i
  {
    HalfOfLow(a, n);
    if i > 0 {
      Halves(a, i);
      Halves(a % Pow2(n), i);
      BitOfLow(a / 2, n - 1, i - 1);
    }
  }

  lemma HalfOfLow(a: nat, n: nat)
    requires n > 0
    ensures a % Pow2(n) / 2 == a / 2 % Pow2(n - 1) && a % Pow2(n) % 2 == a % 2
  {
    HalfMod(a, Pow2(n - 1));
  }

  lemma HalfMod(a: nat, p: nat)
    requires p > 0
    ensures a % (2 * p) / 2 == a / 2 % p && a % (2 * p) % 2 == a % 2
  {
    var q, r := a / 2 / p, a / 2 % p;
    DivNat(a / 2, p);
    HalfModOf(a, p, q, r, p * q);
  }

  lemma HalfModOf(a: nat, p: nat, q: nat, r: nat, m: nat)
    requires a / 2 == m + r && r < p && m == p * q
    ensures a % (2 * p) / 2 == r && a % (2 * p) % 2 == a % 2
  {
    assert (2 * p) * q == 2 * m;
    Quotient(a, 2 * p, q, 2 * r + a % 2);
  }

  lemma SplitProduct(p: nat, q: nat, r: nat)
    ensures p * (0x100 * q + r) == 0x100 * (p * q) + p * r
    ensures (0x100 * p) * q == 0x100 * (p * q)
    ensures r <= 0xff ==> p * r <= 0xff * p
  {
    if r <= 0xff {
      ProductOrder(p, r, 0xff);
    }
  }

  lemma ProductOrder(p: nat, r: nat, t: nat)
    requires r <= t
    ensures p * r <= p * t
  {
  }

  lemma DivByte(a: nat, p: nat)
    requires p > 0
    ensures a / (0x100 * p) == a / p / 0x100
  {
    var x, s := a / p, a % p;
    var q, r := x / 0x100, x % 0x100;
    assert a == p * x + s;
    SplitProduct(p, q, r);
    Combine(a, p, p * q, p * r, s, q);
  }

  lemma Combine(a: nat, p: nat, m: nat, n: nat, s: nat, q: nat)
    requires a == 0x100 * m + n + s && n <= 0xff * p && s < p && (0x100 * p) * q == 0x100 * m
    ensures a / (0x100 * p) == q
  {
    Quotient(a, 0x100 * p, q, n + s);
  }

  lemma DivNat(a: nat, p: nat)
    requires p > 0
    ensures a / p >= 0
  {
    ProductGrows(p, a / p);
  }

  lemma WordSizes()
    ensures Pow2(4) == 0x10 && Pow2(7) == 0x80 && Pow2(8) == 0x100 && Pow2(16) == 0x1_0000
    ensures Pow2(31) == 0x8000_0000 && Pow2(32) == 0x1_0000_0000
    ensures Pow2(63) == 0x8000_0000_0000_0000 && Pow2(64) == 0x1_0000_0000_0000_0000
  {
    assert Pow2(4) == 2 * Pow2(3) == 4 * Pow2(2) == 8 * Pow2(1) == 16;
    Pow2Adds(4, 4);
    Pow2Adds(8, 8);
    Pow2Adds(16, 16);
    Pow2Adds(32, 32);
    assert Pow2(8) == 2 * Pow2(7) && Pow2(32) == 2 * Pow2(31) && Pow2(64) == 2 * Pow2(63);
  }
}
