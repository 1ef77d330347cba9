/** Integer facts shared by the LED encoder and the audio framing:
    powers of two and four, and the uniqueness of Euclidean division. */
module Arith {

  function Pow2(n: nat): (r: nat)
    ensures r >= 1
  {
    if n == 0 then 1 else 2 * Pow2(n - 1)
  }

  function Pow4(n: nat): (r: nat)
    ensures r >= 1
  {
    if n == 0 then 1 else 4 * Pow4(n - 1)
  }

  function Min(a: int, b: int): int { if a <= b then a else b }

  function Max(a: int, b: int): int { if a >= b then a else b }

  /** Bit j of a non-negative integer. */
  predicate Bit(x: nat, j: nat) {
    (x / Pow2(j)) % 2 == 1
  }

  lemma MulSign(d: int, m: int)
    requires m > 0
    ensures d > 0 ==> d * m >= m
    ensures d < 0 ==> d * m <= -m
  {
  }

  /** A quotient and remainder that satisfy the defining equation are THE quotient and remainder. */
  lemma DivModUnique(x: int, m: int, q: int, r: int)
    requires m > 0 && 0 <= r < m && x == q * m + r
    ensures x / m == q && x % m == r
  {
    var d := x / m - q;
    assert d * m == r - x % m;
    MulSign(d, m);
  }

  lemma MulDouble(a: int, b: int)
    ensures a * (2 * b) == 2 * (a * b)
  {
  }

  lemma MulStrict(a: int, b: int, k: int)
    requires 0 <= a < b && k > 0
    ensures 0 <= a * k < b * k
  {
  }

  lemma {:induction false} Pow2Add(a: nat, b: nat)
    ensures Pow2(a + b) == Pow2(a) * Pow2(b)
  {
    if a > 0 {
      Pow2Add(a - 1, b);
    }
  }

  lemma Pow2Values()
    ensures Pow2(15) == 0x8000 && Pow2(16) == 0x10000
  {
    assert Pow2(4) == 0x10;
    assert Pow2(8) == 0x100;
    assert Pow2(12) == 0x1000;
  }

  lemma Pow4Values()
    ensures Pow4(7) == 0x4000 && Pow4(8) == 0x10000
  {
    assert Pow4(4) == 0x100;
  }

  /** Dividing by p and then by two is dividing by 2p. */
  lemma DivTwice(x: nat, p: nat)
    requires p > 0
    ensures x / (2 * p) == (x / p) / 2
  {
    var y, r := x / p, x % p;
    var q, b := y / 2, y % 2;
    Regroup(q, b, p, r);
    assert x == (2 * q + b) * p + r;
    assert b * p + r < 2 * p by {
      if b == 1 {
        assert b * p == p;
      }
    }
    DivModUnique(x, 2 * p, q, b * p + r);
  }

  lemma Regroup(q: int, b: int, p: int, r: int)
    ensures (2 * q + b) * p + r == q * (2 * p) + (b * p + r)
  {
  }

  /** A quotient is at least k when the dividend is at least k times the divisor. */
  lemma DivAtLeast(x: int, m: int, k: int)
    requires m > 0 && x >= k * m
    ensures x / m >= k
  {
    var q, r := x / m, x % m;
    assert x == q * m + r;
    MulSign(k - q, m);
    assert (k - q) * m == k * m - q * m;
  }

  /** Doubling commutes with reduction modulo m. */
  lemma DoubleMod(x: int, m: int)
    requires m > 0
    ensures (2 * (x % m)) % m == (2 * x) % m
  {
    var q, r := x / m, x % m;
    var q2, r2 := (2 * r) / m, (2 * r) % m;
    assert 2 * x == (2 * q + q2) * m + r2;
    DivModUnique(2 * x, m, 2 * q + q2, r2);
  }

  /** Shifting a word left by k bits inside a 16-bit register keeps exactly
      its low 16 - k bits, now sitting above k zero bits. */
  lemma ShiftedKeepsLow(c: int, p: nat, big: nat)
    requires p > 0 && big > 0 && p * big == 0x8000
    ensures (c * big) % 0x10000 == (c % (2 * p)) * big
  {
    var a, b := c / (2 * p), c % (2 * p);
    assert c * big == a * 0x10000 + b * big by {
      assert c == a * (2 * p) + b;
      assert c * big == (a * (2 * p) + b) * big;
      assert a * (2 * p) * big == a * 0x10000;
    }
    MulStrict(b, 2 * p, big);
    DivModUnique(c * big, 0x10000, a, b * big);
  }

  /** Below 2p, scaling by big = 0x8000 / p puts b / p in bit 15. */
  lemma TopOfScaled(b: nat, p: nat, big: nat)
    requires p > 0 && big > 0 && p * big == 0x8000 && b < 2 * p
    ensures (b * big) / 0x8000 == b / p
  {
    var e, f := b / p, b % p;
    assert b * big == e * 0x8000 + f * big by {
      assert b == e * p + f;
      assert b * big == (e * p + f) * big;
      assert e * p * big == e * 0x8000;
    }
    MulStrict(f, p, big);
    DivModUnique(b * big, 0x8000, e, f * big);
  }

  /** Bit 0 of c / p is the quotient of c mod 2p by p. */
  lemma ModDoubleQuotient(c: nat, p: nat)
    requires p > 0
    ensures (c % (2 * p)) / p == (c / p) % 2
  {
    var a, b := c / (2 * p), c % (2 * p);
    var e, f := b / p, b % p;
    assert e <= 1 by {
      MulSign(e - 1, p);
      assert b == e * p + f;
    }
    assert c == (2 * a + e) * p + f by {
      assert c == a * (2 * p) + b;
    }
    DivModUnique(c, p, 2 * a + e, f);
    DivModUnique(2 * a + e, 2, a, e);
  }

  /** The top bit of that shifted word is bit 15 - k of the original. */
  lemma ShiftedTopIsBit(c: nat, p: nat, big: nat)
    requires p > 0 && big > 0 && p * big == 0x8000
    ensures ((c % (2 * p)) * big / 0x8000) % 2 == (c / p) % 2
  {
    TopOfScaled(c % (2 * p), p, big);
    ModDoubleQuotient(c, p);
  }

  /** The top bit (bit 15) of a 16-bit word that has been shifted left k times,
      discarding what leaves the word, is bit 15 - k of the original word. */
  lemma ShiftedTopBit(c: nat, k: nat)
    requires c < 0x10000 && k < 16
    ensures ((c * Pow2(k)) % 0x10000 / 0x8000) % 2 == 1 <==> Bit(c, 15 - k)
  {
    Pow2Add(15 - k, k);
    Pow2Values();
    ShiftedKeepsLow(c, Pow2(15 - k), Pow2(k));
    ShiftedTopIsBit(c, Pow2(15 - k), Pow2(k));
  }
}
