/** Powers of two, bit lengths and bitwise or, on natural numbers. */
module Bits {
  import opened Primitives

  function Pow2(k: nat): (r: nat)
    ensures r > 0
  {
    if k == 0 then 1 else 2 * Pow2(k - 1)
  }

  lemma {:induction false} Pow2Add(a: nat, b: nat)
    ensures Pow2(a + b) == Pow2(a) * Pow2(b)
  {
    if b == 0 {
      PowZero();
    } else {
      hide *;
      Pow2Add(a, b - 1);
      PowNext(a + b - 1);
      PowNext(b - 1);
      Regroup(Pow2(a), Pow2(b - 1));
    }
  }

  lemma PowZero()
    ensures Pow2(0) == 1
  {
  }

  lemma PowNext(i: nat)
    ensures Pow2(i + 1) == 2 * Pow2(i)
  {
  }

  lemma {:induction false} Pow2Grows(a: nat, b: nat)
    requires a <= b
    ensures Pow2(a) <= Pow2(b)
  {
    if a < b {
      Pow2Grows(a, b - 1);
    }
  }

  lemma LimbWidth()
    ensures Pow2(64) == TWO_64
  {
    assert Pow2(8) == 256;
    assert Pow2(16) == 0x1_0000;
    assert Pow2(24) == 0x100_0000;
    assert Pow2(32) == 0x1_0000_0000;
    Pow2Add(32, 32);
  }

  /** Number of significant bits. */
  function BitLength(x: nat): (r: nat) {
    if x == 0 then 0 else 1 + BitLength(x / 2)
  }

  /** `x` lies between the powers of two that its bit length names. */
  lemma {:induction false} BitLengthBounds(x: nat)
    ensures x < Pow2(BitLength(x))
    ensures x > 0 ==> BitLength(x) > 0 && Pow2(BitLength(x) - 1) <= x
  {
    if x > 0 {
      BitLengthBounds(x / 2);
    }
  }

  /** Only one bit length has these bounds. */
  lemma BitLengthUnique(x: nat, n: nat)
    requires n > 0 && Pow2(n - 1) <= x < Pow2(n)
    ensures BitLength(x) == n
  {
    BitLengthBounds(x);
    if BitLength(x) < n {
      Pow2Grows(BitLength(x), n - 1);
    } else if n < BitLength(x) {
      Pow2Grows(n, BitLength(x) - 1);
    }
  }

  /** Bitwise or. */
  function Or(x: nat, y: nat): (r: nat)
    decreases x + y
  {
    if x == 0 then y
    else if y == 0 then x
    else (if x % 2 == 1 || y % 2 == 1 then 1 else 0) + 2 * Or(x / 2, y / 2)
  }

  lemma {:induction false} OrBound(x: nat, y: nat, k: nat)
    requires x < Pow2(k) && y < Pow2(k)
    ensures Or(x, y) < Pow2(k)
  {
    if x != 0 && y != 0 {
      OrBound(x / 2, y / 2, k - 1);
    }
  }

  /** Where no bit is set on both sides, or adds. */
  lemma {:induction false} OrDisjoint(x: nat, y: nat, k: nat)
    requires x % Pow2(k) == 0 && y < Pow2(k)
    ensures Or(x, y) == x + y
    decreases k
  {
    if x == 0 || y == 0 {
    } else {
      HalfMultiple(x, k);
      OrDisjoint(x / 2, y / 2, k - 1);
    }
  }

  lemma HalfMultiple(x: nat, k: nat)
    requires k > 0 && x % Pow2(k) == 0
    ensures x % 2 == 0 && (x / 2) % Pow2(k - 1) == 0
  {
    var m, h := x / Pow2(k), Pow2(k - 1);
    Regroup(m, h);
    DivModUnique(x / 2, h, m, 0);
  }

  lemma Regroup(m: nat, h: nat)
    ensures m * (2 * h) == 2 * (m * h)
  {
  }

  /** Quotient and remainder are determined by x == q * d + r with r < d. */
  lemma DivModUnique(x: nat, d: nat, q: nat, r: nat)
    requires r < d && x == q * d + r
    ensures x / d == q && x % d == r
  {
    var q', r' := x / d, x % d;
    assert x == q' * d + r';
    if q < q' {
      assert q' * d >= (q + 1) * d by { MulGrows(q + 1, q', d); }
    } else if q' < q {
      assert q * d >= (q' + 1) * d by { MulGrows(q' + 1, q, d); }
    }
  }

  lemma MulGrows(a: nat, b: nat, d: nat)
    requires a <= b
    ensures a * d <= b * d
  {
  }

  /** Or works on the low `k` bits and on the rest independently. */
  lemma {:induction false} OrSplit(a: nat, b: nat, c: nat, d: nat, k: nat)
    requires a < Pow2(k) && c < Pow2(k)
    ensures Or(a + Pow2(k) * b, c + Pow2(k) * d) == Or(a, c) + Pow2(k) * Or(b, d)
    decreases k
  {
    hide Or;
    if k == 0 {
      assert Or(0, 0) == 0 by { OrZero(); }
    } else {
      var h := Pow2(k - 1);
      OrSplit(a / 2, b, c / 2, d, k - 1);
      OrDouble(a, c, h * b, h * d, h * Or(b, d));
      Regroup(b, h);
      Regroup(d, h);
      Regroup(Or(b, d), h);
    }
  }

  lemma OrZero()
    ensures Or(0, 0) == 0
  {
  }

  lemma OrDouble(a: nat, c: nat, p: nat, q: nat, o: nat)
    requires Or(a / 2 + p, c / 2 + q) == Or(a / 2, c / 2) + o
    ensures Or(a + 2 * p, c + 2 * q) == Or(a, c) + 2 * o
  {
    hide Or;
    OrStep(a + 2 * p, c + 2 * q);
    OrStep(a, c);
    assert (a + 2 * p) / 2 == a / 2 + p && (c + 2 * q) / 2 == c / 2 + q;
  }

  lemma OrStep(x: nat, y: nat)
    ensures Or(x, y) == (if x % 2 == 1 || y % 2 == 1 then 1 else 0) + 2 * Or(x / 2, y / 2)
  {
  }
}
