/**
 256-bit arithmetic on four 64-bit limbs: crates/ivory-primitives/src/uint.rs.

 Every operation is proved exact against the natural number that its limbs denote.
 */
module Uint {
  import opened Primitives
  import opened Bits

  /** Four limbs, least significant first. */
  type Limbs = s: seq<U64> | |s| == 4 witness [0, 0, 0, 0]

  const ZERO: Limbs := [0, 0, 0, 0]
  const ONE: Limbs := [1, 0, 0, 0]

  // ----- The number that limbs denote

  function Weight(i: nat): (r: nat)
    ensures r > 0
  {
    if i == 0 then 1 else TWO_64 * Weight(i - 1)
  }

  /** The number denoted by the `n` low limbs. */
  function Prefix(s: seq<U64>, n: nat): (r: nat)
    requires n <= |s|
  {
    if n == 0 then 0 else Prefix(s, n - 1) + s[n - 1] * Weight(n - 1)
  }

  function Value(x: Limbs): (r: Word) {
    PrefixBound(x, 4);
    WordWeight();
    Prefix(x, 4)
  }

  function ValueOf(x: Option<Limbs>): (r: Option<Word>) {
    if x.None? then None else Some(Value(x.value))
  }

  lemma WordWeight()
    ensures Weight(4) == TWO_256
  {
    assert Weight(2) == 0x1_0000_0000_0000_0000_0000_0000_0000_0000;
  }

  lemma {:induction false} PrefixBound(s: seq<U64>, n: nat)
    requires n <= |s|
    ensures Prefix(s, n) < Weight(n)
  {
    if n > 0 {
      PrefixBound(s, n - 1);
      MulGrows(s[n - 1], TWO_64 - 1, Weight(n - 1));
    }
  }

  lemma {:induction false} PrefixFrame(s: seq<U64>, t: seq<U64>, n: nat)
    requires n <= |s| && n <= |t| && forall i :: 0 <= i < n ==> s[i] == t[i]
    ensures Prefix(s, n) == Prefix(t, n)
  {
    if n > 0 {
      PrefixFrame(s, t, n - 1);
    }
  }

  /** Where the limbs from `m` up agree, the numbers differ only below. */
  lemma {:induction false} AgreeAbove(s: seq<U64>, t: seq<U64>, m: nat, n: nat)
    requires m <= n <= |s| == |t| && forall i :: m <= i < n ==> s[i] == t[i]
    ensures Prefix(s, n) - Prefix(s, m) == Prefix(t, n) - Prefix(t, m)
  {
    if m < n {
      AgreeAbove(s, t, m, n - 1);
    }
  }

  /** Replacing one limb changes the number by that limb's weight. */
  lemma SetLimb(s: seq<U64>, i: nat, x: U64, n: nat)
    requires i < n <= |s|
    ensures Prefix(s[i := x], n) == Prefix(s, n) - s[i] * Weight(i) + x * Weight(i)
  {
    var t := s[i := x];
    PrefixFrame(s, t, i);
    AgreeAbove(s, t, i + 1, n);
  }

  lemma ZeroLimbs()
    ensures Value(ZERO) == 0 && Value(ONE) == 1
  {
    hide Weight;
    assert Prefix(ZERO, 1) == 0 && Prefix(ONE, 1) == 1 by { assert Weight(0) == 1 by { WeightZero(); } }
    assert Prefix(ZERO, 2) == 0 && Prefix(ONE, 2) == 1;
    assert Prefix(ZERO, 3) == 0 && Prefix(ONE, 3) == 1;
  }

  lemma WeightZero()
    ensures Weight(0) == 1
  {
  }

  // ----- Order

  lemma LowerLimbs(a: Limbs, b: Limbs, i: nat)
    requires i < 4 && a[i] < b[i] && forall j :: i < j < 4 ==> a[j] == b[j]
    ensures Value(a) < Value(b)
  {
    hide Prefix, Weight;
    AgreeAbove(a, b, i + 1, 4);
    PrefixNext(a, i);
    PrefixNext(b, i);
    PrefixBound(a, i);
    MulGrows(a[i] + 1, b[i], Weight(i));
  }

  /** Negative, zero or positive, as `a` is below, equal to or above `b`. */
  method Compare(a: Limbs, b: Limbs) returns (c: int)
    ensures c < 0 <==> Value(a) < Value(b)
    ensures c > 0 <==> Value(a) > Value(b)
    ensures c == 0 <==> a == b
  {
    hide Value, Prefix;
    for i := 4 downto 0
      invariant forall j :: i <= j < 4 ==> a[j] == b[j]
    {
      if a[i] != b[i] {
        if a[i] < b[i] {
          LowerLimbs(a, b, i);
          return -1;
        }
        LowerLimbs(b, a, i);
        return 1;
      }
    }
    assert a == b;
    return 0;
  }

  /** Limbs are determined by the number they denote. */
  lemma ValueInjective(a: Limbs, b: Limbs)
    requires Value(a) == Value(b)
    ensures a == b
  {
    hide Value;
    if a[3] != b[3] {
      DifferAt(a, b, 3);
    } else if a[2] != b[2] {
      DifferAt(a, b, 2);
    } else if a[1] != b[1] {
      DifferAt(a, b, 1);
    } else if a[0] != b[0] {
      DifferAt(a, b, 0);
    }
  }

  lemma DifferAt(a: Limbs, b: Limbs, i: nat)
    requires i < 4 && a[i] != b[i] && forall j :: i < j < 4 ==> a[j] == b[j]
    ensures Value(a) != Value(b)
  {
    hide Value;
    if a[i] < b[i] {
      LowerLimbs(a, b, i);
    } else {
      LowerLimbs(b, a, i);
    }
  }

  // ----- Addition and subtraction

  /** One column: digits and carry in, digit and carry out, scaled to their place. */
  lemma Column(x: nat, y: nat, c: nat, r: nat, c': nat, w: nat)
    requires x + y + c == r + TWO_64 * c'
    ensures x * w + y * w + c * w == r * w + c' * (TWO_64 * w)
  {
    assert (x + y + c) * w == x * w + y * w + c * w;
    assert (r + TWO_64 * c') * w == r * w + TWO_64 * c' * w;
  }

  function OverflowingAdd(a: U64, b: U64): (r: (U64, U64))
    ensures a + b == r.0 + TWO_64 * r.1 && r.1 <= 1
  {
    if a + b < TWO_64 then (a + b, 0) else (a + b - TWO_64, 1)
  }

  function OverflowingSub(a: U64, b: U64): (r: (U64, U64))
    ensures a + TWO_64 * r.1 == b + r.0 && r.1 <= 1
  {
    if a >= b then (a - b, 0) else (a + TWO_64 - b, 1)
  }

  method AddLimbs(a: Limbs, b: Limbs) returns (result: Limbs, carry: U64)
    ensures Value(a) + Value(b) == Value(result) + carry * TWO_256 && carry <= 1
  {
    hide Prefix;
    result := ZERO;
    carry := 0;
    PrefixNone(a);
    PrefixNone(b);
    PrefixNone(result);
    for i := 0 to 4
      invariant carry <= 1
      invariant Prefix(a, i) + Prefix(b, i) == Prefix(result, i) + carry * Weight(i)
    {
      var (sum1, c1) := OverflowingAdd(a[i], b[i]);
      var (sum2, c2) := OverflowingAdd(sum1, carry);
      Column(a[i], b[i], carry, sum2, c1 + c2, Weight(i));
      PrefixFrame(result, result[i := sum2], i);
      result := result[i := sum2];
      carry := c1 + c2;
      PrefixNext(a, i);
      PrefixNext(b, i);
      PrefixNext(result, i);
    }
    WordWeight();
  }

  lemma PrefixNone(s: seq<U64>)
    ensures Prefix(s, 0) == 0
  {
  }

  lemma PrefixNext(s: seq<U64>, n: nat)
    requires n < |s|
    ensures Prefix(s, n + 1) == Prefix(s, n) + s[n] * Weight(n)
  {
  }

  method CheckedAddLimbs(a: Limbs, b: Limbs) returns (r: Option<Limbs>)
    ensures ValueOf(r) == CheckedAdd(Value(a), Value(b))
  {
    hide Value;
    var result, carry := AddLimbs(a, b);
    return if carry > 0 then None else Some(result);
  }

  method WrappingAdd(a: Limbs, b: Limbs) returns (r: Limbs)
    ensures Value(r) == (Value(a) + Value(b)) % TWO_256
  {
    hide Value;
    var carry;
    r, carry := AddLimbs(a, b);
  }

  method SubLimbs(a: Limbs, b: Limbs) returns (result: Limbs, borrow: U64)
    ensures Value(a) + borrow * TWO_256 == Value(b) + Value(result) && borrow <= 1
  {
    hide Prefix;
    result := ZERO;
    borrow := 0;
    PrefixNone(a);
    PrefixNone(b);
    PrefixNone(result);
    for i := 0 to 4
      invariant borrow <= 1
      invariant Prefix(a, i) + borrow * Weight(i) == Prefix(b, i) + Prefix(result, i)
    {
      var (diff1, b1) := OverflowingSub(a[i], b[i]);
      var (diff2, b2) := OverflowingSub(diff1, borrow);
      Column(b[i], diff2, borrow, a[i], b1 + b2, Weight(i));
      PrefixFrame(result, result[i := diff2], i);
      result := result[i := diff2];
      borrow := b1 + b2;
      PrefixNext(a, i);
      PrefixNext(b, i);
      PrefixNext(result, i);
    }
    WordWeight();
  }

  method CheckedSub(a: Limbs, b: Limbs) returns (r: Option<Limbs>)
    ensures ValueOf(r) == if Value(a) < Value(b) then None else Some(Value(a) - Value(b))
  {
    hide Value;
    var c := Compare(a, b);
    if c < 0 {
      return None;
    }
    var result, borrow := SubLimbs(a, b);
    return Some(result);
  }

  method WrappingSub(a: Limbs, b: Limbs) returns (r: Limbs)
    ensures Value(r) == (Value(a) - Value(b)) % TWO_256
  {
    hide Value;
    var borrow;
    r, borrow := SubLimbs(a, b);
  }

  // ----- Bit length and shifts

  lemma {:induction false} WeightIsPower(i: nat)
    ensures Weight(i) == Pow2(64 * i)
  {
    LimbWidth();
    if i > 0 {
      WeightIsPower(i - 1);
      Pow2Add(64, 64 * (i - 1));
    }
  }

  /** The number seen from its highest non-zero limb. */
  lemma TopLimb(x: Limbs, i: nat)
    requires i < 4 && forall j :: i < j < 4 ==> x[j] == 0
    ensures x[i] * Weight(i) <= Value(x) < (x[i] + 1) * Weight(i)
  {
    hide Prefix, Weight;
    ZeroAbove(x, i + 1, 4);
    PrefixNext(x, i);
    PrefixBound(x, i);
  }

  lemma {:induction false} ZeroAbove(s: seq<U64>, m: nat, n: nat)
    requires m <= n <= |s| && forall j :: m <= j < n ==> s[j] == 0
    ensures Prefix(s, n) == Prefix(s, m)
  {
    if m < n {
      ZeroAbove(s, m, n - 1);
    }
  }

  lemma TopBits(x: Limbs, i: nat)
    requires i < 4 && x[i] > 0 && forall j :: i < j < 4 ==> x[j] == 0
    ensures BitLength(Value(x)) == 64 * i + BitLength(x[i])
  {
    hide Value, Weight, Pow2, BitLength;
    var n, d: nat := BitLength(x[i]), x[i];
    TopLimb(x, i);
    BitLengthBounds(x[i]);
    WeightIsPower(i);
    Pow2Add(n - 1, 64 * i);
    Pow2Add(n, 64 * i);
    MulGrows(Pow2(n - 1), x[i], Weight(i));
    MulGrows(d + 1, Pow2(n), Weight(i));
    BitLengthUnique(Value(x), 64 * i + n);
  }

  lemma BitLengthOfLimb(x: U64)
    ensures BitLength(x) <= 64
  {
    hide Pow2;
    LimbWidth();
    BitLengthBounds(x);
    if BitLength(x) > 64 {
      Pow2Grows(64, BitLength(x) - 1);
    }
  }

  method LeadingZeros(x: Limbs) returns (n: nat)
    ensures n <= 256 && n == 256 - BitLength(Value(x))
  {
    hide Value;
    for i := 4 downto 0
      invariant forall j :: i <= j < 4 ==> x[j] == 0
    {
      if x[i] != 0 {
        TopBits(x, i);
        BitLengthOfLimb(x[i]);
        return (3 - i) * 64 + (64 - BitLength(x[i]));
      }
    }
    assert x == ZERO;
    ZeroLimbs();
    return 256;
  }

  /** `x << k` on one limb drops the bits that leave it; `x >> k` the ones below. */
  function ShiftLeft64(x: U64, k: nat): (r: U64) {
    (x * Pow2(k)) % TWO_64
  }

  function ShiftRight64(x: U64, k: nat): (r: U64) {
    Quotient(x, Pow2(k))
  }

  function Quotient(x: nat, d: nat): (q: nat)
    requires d > 0
    ensures q <= x
  {
    QuotientBound(x, d);
    x / d
  }

  lemma QuotientBound(x: nat, d: nat)
    requires d > 0
    ensures x / d <= x
  {
    var q := x / d;
    assert x == q * d + x % d;
    MulGrows(1, d, q);
  }

  /** Shifting left and the part that moves into the next limb make up the whole product. */
  lemma SplitLeft(x: U64, k: nat)
    requires 0 < k < 64
    ensures x * Pow2(k) == ShiftLeft64(x, k) + TWO_64 * ShiftRight64(x, 64 - k)
    ensures ShiftLeft64(x, k) % Pow2(k) == 0 && ShiftRight64(x, 64 - k) < Pow2(k)
  {
    hide Pow2;
    LimbWidth();
    Pow2Add(k, 64 - k);
    var p, q: nat := Pow2(k), Pow2(64 - k);
    var hi, lo := x / q, x % q;
    SplitProduct(x, hi, lo, p, q);
    LowFits(lo, p, q);
    DivModUnique(x * p, TWO_64, hi, lo * p);
    DivModUnique(lo * p, p, lo, 0);
    HighFits(x, hi, lo, p, q);
  }

  lemma SplitProduct(x: nat, hi: nat, lo: nat, p: nat, q: nat)
    requires x == hi * q + lo
    ensures x * p == hi * (p * q) + lo * p
  {
    assert (hi * q + lo) * p == hi * q * p + lo * p;
    assert hi * q * p == hi * (p * q);
  }

  lemma LowFits(lo: nat, p: nat, q: nat)
    requires lo < q && p > 0
    ensures lo * p < p * q
  {
    MulGrows(lo + 1, q, p);
  }

  lemma HighFits(x: nat, hi: nat, lo: nat, p: nat, q: nat)
    requires x == hi * q + lo && x < p * q
    ensures hi < p
  {
    if hi >= p {
      MulGrows(p, hi, q);
    }
  }

  function Or64(x: U64, y: U64): (r: U64) {
    LimbWidth();
    OrBound(x, y, 64);
    Or(x, y)
  }

  lemma {:induction false} WeightAdd(i: nat, j: nat)
    ensures Weight(i + j) == Weight(i) * Weight(j)
  {
    WeightIsPower(i);
    WeightIsPower(j);
    WeightIsPower(i + j);
    hide Weight, Pow2;
    Pow2Add(64 * i, 64 * j);
    assert 64 * (i + j) == 64 * i + 64 * j;
  }

  lemma ShiftColumn(p: nat, pk: nat, wl: nat, wj: nat, w: nat, r: nat, c: nat, x: nat, d: nat, c': nat)
    requires p * pk * wl == r + c * w && wj * wl == w && x * pk + c == d + TWO_64 * c'
    ensures (p + x * wj) * pk * wl == r + d * w + c' * (TWO_64 * w)
  {
    assert (p + x * wj) * pk * wl == p * pk * wl + x * pk * (wj * wl);
    assert (x * pk + c) * w == x * pk * w + c * w;
    assert (d + TWO_64 * c') * w == d * w + c' * (TWO_64 * w);
  }

  /** What the limb at distance `j` receives from its lower neighbour. */
  function Spill(x: Limbs, j: nat, k: nat): (c: U64)
    requires j <= 4 && k < 64
  {
    if j == 0 || k == 0 then 0 else ShiftRight64(x[j - 1], 64 - k)
  }

  /** The limb at distance `j` after the shift. */
  function ShiftedLimb(x: Limbs, j: nat, k: nat): (d: U64)
    requires j < 4 && k < 64
  {
    if k == 0 then x[j]
    else if j == 0 then ShiftLeft64(x[0], k)
    else Or64(ShiftLeft64(x[j], k), ShiftRight64(x[j - 1], 64 - k))
  }

  lemma ShiftedLimbColumn(x: Limbs, j: nat, k: nat)
    requires j < 4 && k < 64
    ensures x[j] * Pow2(k) + Spill(x, j, k) == ShiftedLimb(x, j, k) + TWO_64 * Spill(x, j + 1, k)
  {
    hide Or, ShiftLeft64, ShiftRight64;
    if k > 0 {
      SplitLeft(x[j], k);
      if j > 0 {
        SplitLeft(x[j - 1], k);
        OrDisjoint(ShiftLeft64(x[j], k), ShiftRight64(x[j - 1], 64 - k), k);
      }
    }
  }

  lemma {:induction false} SplitPrefix(s: seq<U64>, m: nat, n: nat)
    requires m <= n <= |s|
    ensures Prefix(s, n) == Prefix(s, m) + Prefix(s[m..], n - m) * Weight(m)
  {
    if m < n {
      hide Weight;
      SplitPrefix(s, m, n - 1);
      WeightAdd(n - 1 - m, m);
      PrefixNext(s, n - 1);
      PrefixNext(s[m..], n - 1 - m);
      Scaled(Prefix(s[m..], n - 1 - m), s[n - 1], Weight(n - 1 - m), Weight(m));
    }
  }

  lemma Scaled(a: nat, x: nat, w: nat, v: nat)
    ensures (a + x * w) * v == a * v + x * (w * v)
  {
  }

  /** `x << shift`, dropping what leaves the word. */
  method ShiftLeft(x: Limbs, shift: nat) returns (result: Limbs)
    ensures Value(result) == (Value(x) * Pow2(shift)) % TWO_256
  {
    hide Prefix, Weight, Pow2, ShiftedLimb, Spill, Or64, ShiftLeft64, ShiftRight64;
    if shift >= 256 {
      ShiftedOut(Value(x), shift);
      ZeroLimbs();
      return ZERO;
    }
    if shift == 0 {
      PowZero();
      return x;
    }
    var limbShift, bitShift := shift / 64, shift % 64;
    result := ZERO;
    ZeroAbove(result, 0, limbShift);
    PrefixNone(x);
    PrefixNone(result);
    SpillNone(x, bitShift);
    for i := limbShift to 4
      invariant Prefix(x, i - limbShift) * Pow2(bitShift) * Weight(limbShift) ==
                Prefix(result, i) + Spill(x, i - limbShift, bitShift) * Weight(i)
    {
      var j := i - limbShift;
      var limb;
      if bitShift == 0 {
        limb := x[j];
      } else {
        limb := ShiftLeft64(x[j], bitShift);
        if i > limbShift {
          limb := Or64(limb, ShiftRight64(x[j - 1], 64 - bitShift));
        }
      }
      LimbIsShifted(x, j, bitShift, limb);
      ShiftedLimbColumn(x, j, bitShift);
      WeightAdd(j, limbShift);
      ShiftColumn(Prefix(x, j), Pow2(bitShift), Weight(limbShift), Weight(j), Weight(i), Prefix(result, i),
                  Spill(x, j, bitShift), x[j], limb, Spill(x, j + 1, bitShift));
      PrefixFrame(result, result[i := limb], i);
      result := result[i := limb];
      PrefixNext(x, j);
      PrefixNext(result, i);
      WeightNext(i);
    }
    ShiftTotal(x, limbShift, bitShift, result, Spill(x, 4 - limbShift, bitShift));
  }

  lemma WeightNext(i: nat)
    ensures Weight(i + 1) == TWO_64 * Weight(i)
  {
  }

  lemma SpillNone(x: Limbs, k: nat)
    requires k < 64
    ensures Spill(x, 0, k) == 0
  {
  }

  lemma LimbIsShifted(x: Limbs, j: nat, k: nat, limb: U64)
    requires j < 4 && k < 64
    requires limb == if k == 0 then x[j]
                     else if j == 0 then ShiftLeft64(x[j], k)
                     else Or64(ShiftLeft64(x[j], k), ShiftRight64(x[j - 1], 64 - k))
    ensures limb == ShiftedLimb(x, j, k)
  {
  }

  lemma ShiftedOut(v: nat, shift: nat)
    requires shift >= 256
    ensures (v * Pow2(shift)) % TWO_256 == 0
  {
    hide Pow2;
    WeightIsPower(4);
    WordWeight();
    Pow2Add(shift - 256, 256);
    var q := v * Pow2(shift - 256);
    Assoc(v, Pow2(shift - 256), TWO_256);
    DivModUnique(v * Pow2(shift), TWO_256, q, 0);
  }

  lemma Assoc(a: nat, b: nat, c: nat)
    ensures a * (b * c) == a * b * c
  {
  }

  lemma ShiftTotal(x: Limbs, l: nat, k: nat, result: Limbs, spill: nat)
    requires l < 4 && k < 64
    requires Prefix(x, 4 - l) * Pow2(k) * Weight(l) == Prefix(result, 4) + spill * Weight(4)
    ensures Value(result) == (Value(x) * Pow2(64 * l + k)) % TWO_256
  {
    hide Prefix, Weight, Pow2;
    SplitPrefix(x, 4 - l, 4);
    WeightAdd(4 - l, l);
    WeightIsPower(l);
    Pow2Add(k, 64 * l);
    WordWeight();
    var high, p, w: nat := Prefix(x[4 - l..], l), Pow2(k), Weight(l);
    Overshoot(Prefix(x, 4 - l), high, Weight(4 - l), p, w, Prefix(result, 4), spill, TWO_256);
    Assoc(Value(x), p, w);
    DivModUnique(Value(x) * p * w, TWO_256, spill + high * p, Value(result));
  }

  lemma Overshoot(low: nat, high: nat, wh: nat, p: nat, w: nat, r: nat, c: nat, total: nat)
    requires low * p * w == r + c * total && wh * w == total
    ensures (low + high * wh) * p * w == (c + high * p) * total + r
  {
    assert (low + high * wh) * p * w == low * p * w + high * p * (wh * w);
    assert (c + high * p) * total == c * total + high * p * total;
  }

  /** The bits of limb `t` that a right shift moves below it. */
  function Fallen(x: Limbs, t: nat, k: nat): (c: nat)
    ensures c < Pow2(k)
  {
    if t < 4 then x[t] % Pow2(k) else 0
  }

  function LoweredLimb(x: Limbs, t: nat, k: nat): (d: U64)
    requires t < 4 && k < 64
  {
    if k == 0 then x[t]
    else if t == 3 then ShiftRight64(x[t], k)
    else Or64(ShiftRight64(x[t], k), ShiftLeft64(x[t + 1], 64 - k))
  }

  lemma LoweredLimbColumn(x: Limbs, t: nat, k: nat)
    requires t < 4 && k < 64
    ensures LoweredLimb(x, t, k) * Pow2(k) + Fallen(x, t, k) == x[t] + Fallen(x, t + 1, k) * TWO_64
  {
    hide Or, ShiftLeft64, ShiftRight64, Pow2;
    if k == 0 {
      PowZero();
    } else {
      KeptBits(x[t], k);
      if t < 3 {
        FallenBits(x[t + 1], k);
        OrSwap(ShiftRight64(x[t], k), ShiftLeft64(x[t + 1], 64 - k));
        OrDisjoint(ShiftLeft64(x[t + 1], 64 - k), ShiftRight64(x[t], k), 64 - k);
        Scaled(ShiftRight64(x[t], k), 1, ShiftLeft64(x[t + 1], 64 - k), Pow2(k));
      }
    }
  }

  lemma {:induction false} OrSwap(x: nat, y: nat)
    ensures Or(x, y) == Or(y, x)
    decreases x + y
  {
    if x != 0 && y != 0 {
      OrSwap(x / 2, y / 2);
    }
  }

  lemma KeptBits(x: U64, k: nat)
    requires 0 < k < 64
    ensures ShiftRight64(x, k) * Pow2(k) + x % Pow2(k) == x && ShiftRight64(x, k) < Pow2(64 - k)
  {
    hide Pow2, ShiftLeft64;
    SplitLeft(x, 64 - k);
  }

  lemma FallenBits(x: U64, k: nat)
    requires 0 < k < 64
    ensures ShiftLeft64(x, 64 - k) * Pow2(k) == (x % Pow2(k)) * TWO_64
    ensures ShiftLeft64(x, 64 - k) % Pow2(64 - k) == 0
  {
    hide Pow2, ShiftLeft64;
    SplitLeft(x, 64 - k);
    LimbWidth();
    Pow2Add(64 - k, k);
    var p, q: nat := Pow2(64 - k), Pow2(k);
    var hi, lo := x / q, x % q;
    Rescale(x, p, q, hi, lo, ShiftLeft64(x, 64 - k));
  }

  lemma Rescale(x: nat, p: nat, q: nat, hi: nat, lo: nat, s: nat)
    requires p * q == TWO_64 && x == hi * q + lo && x * p == s + TWO_64 * hi
    ensures s * q == lo * TWO_64
  {
    SplitProduct(x, hi, lo, p, q);
    assert s == lo * p;
    assert lo * p * q == lo * (p * q);
  }

  lemma LowerColumn(r: nat, pk: nat, base: nat, h: nat, c: nat, w: nat, d: nat, x: nat, c': nat)
    requires r * pk + base == h + c * w && d * pk + c == x + c' * TWO_64
    ensures (r + d * w) * pk + base == h + x * w + c' * (TWO_64 * w)
  {
    assert (r + d * w) * pk == r * pk + d * pk * w;
    assert (d * pk + c) * w == d * pk * w + c * w;
    assert (x + c' * TWO_64) * w == x * w + c' * (TWO_64 * w);
  }

  /** `x >> shift`. */
  method ShiftRight(x: Limbs, shift: nat) returns (result: Limbs)
    ensures Value(result) == Value(x) / Pow2(shift)
  {
    hide Prefix, Weight, Pow2, Fallen, LoweredLimb, Or64, ShiftLeft64, ShiftRight64;
    if shift >= 256 {
      AllFallen(x, shift);
      ZeroLimbs();
      return ZERO;
    }
    if shift == 0 {
      PowZero();
      return x;
    }
    var limbShift, bitShift := shift / 64, shift % 64;
    result := ZERO;
    ghost var upper := x[limbShift..];
    PrefixNone(upper);
    PrefixNone(result);
    assert Weight(0) == 1 by { WeightZero(); }
    for i := 0 to 4 - limbShift
      invariant Prefix(result, i) * Pow2(bitShift) + Fallen(x, limbShift, bitShift) ==
                Prefix(upper, i) + Fallen(x, limbShift + i, bitShift) * Weight(i)
      invariant forall j :: i <= j < 4 ==> result[j] == 0
    {
      var t := i + limbShift;
      var limb;
      if bitShift == 0 {
        limb := x[t];
      } else {
        limb := ShiftRight64(x[t], bitShift);
        if t + 1 < 4 {
          limb := Or64(limb, ShiftLeft64(x[t + 1], 64 - bitShift));
        }
      }
      LimbIsLowered(x, t, bitShift, limb);
      LoweredLimbColumn(x, t, bitShift);
      LowerColumn(Prefix(result, i), Pow2(bitShift), Fallen(x, limbShift, bitShift), Prefix(upper, i),
                  Fallen(x, t, bitShift), Weight(i), limb, x[t], Fallen(x, t + 1, bitShift));
      PrefixFrame(result, result[i := limb], i);
      result := result[i := limb];
      PrefixNext(upper, i);
      PrefixNext(result, i);
      WeightNext(i);
    }
    ZeroAbove(result, 4 - limbShift, 4);
    LowerTotal(x, limbShift, bitShift, result);
  }

  lemma LimbIsLowered(x: Limbs, t: nat, k: nat, limb: U64)
    requires t < 4 && k < 64
    requires limb == if k == 0 then x[t]
                     else if t == 3 then ShiftRight64(x[t], k)
                     else Or64(ShiftRight64(x[t], k), ShiftLeft64(x[t + 1], 64 - k))
    ensures limb == LoweredLimb(x, t, k)
  {
  }

  lemma AllFallen(x: Limbs, shift: nat)
    requires shift >= 256
    ensures Value(x) / Pow2(shift) == 0
  {
    hide Pow2, Value;
    WeightIsPower(4);
    WordWeight();
    Pow2Grows(256, shift);
    DivModUnique(Value(x), Pow2(shift), 0, Value(x));
  }

  lemma LowerTotal(x: Limbs, l: nat, k: nat, result: Limbs)
    requires l < 4 && k < 64
    requires Prefix(result, 4) * Pow2(k) + Fallen(x, l, k) == Prefix(x[l..], 4 - l) + Fallen(x, 4, k) * Weight(4 - l)
    ensures Value(result) == Value(x) / Pow2(64 * l + k)
  {
    hide Prefix, Weight, Pow2;
    SplitPrefix(x, l, 4);
    WeightIsPower(l);
    Pow2Add(k, 64 * l);
    PrefixBound(x, l);
    var p, w, low, c: nat := Pow2(k), Weight(l), Prefix(x, l), Fallen(x, l, k);
    Undershoot(Value(result), p, w, low, c);
    DivModUnique(Value(x), p * w, Value(result), c * w + low);
  }

  lemma Undershoot(r: nat, p: nat, w: nat, low: nat, c: nat)
    requires low < w && c < p
    ensures (r * p + c) * w == r * (p * w) + c * w && c * w + low < p * w
  {
    assert (r * p + c) * w == r * p * w + c * w;
    Assoc(r, p, w);
    MulGrows(c + 1, p, w);
  }

  // ----- Multiplication

  function IsZero(x: Limbs): bool {
    x[0] == 0 && x[1] == 0 && x[2] == 0 && x[3] == 0
  }

  lemma IsZeroValue(x: Limbs)
    ensures IsZero(x) <==> Value(x) == 0
  {
    hide Value;
    ZeroLimbs();
    if IsZero(x) {
      assert x == ZERO;
    } else if Value(x) == 0 {
      ValueInjective(x, ZERO);
    }
  }

  lemma NonzeroLimb(x: Limbs, i: nat)
    requires i < 4 && x[i] > 0
    ensures BitLength(Value(x)) > 64 * i
  {
    hide Value, Weight, Pow2, BitLength;
    WeightIsPower(i);
    LimbBelow(x, i);
    BitLengthBounds(Value(x));
    if BitLength(Value(x)) <= 64 * i {
      Pow2Grows(BitLength(Value(x)), 64 * i);
    }
  }

  lemma LimbBelow(x: Limbs, i: nat)
    requires i < 4 && x[i] > 0
    ensures Value(x) >= Weight(i)
  {
    hide Weight, Prefix;
    SplitPrefix(x, i + 1, 4);
    PrefixNext(x, i);
    MulGrows(1, x[i], Weight(i));
  }

  /** If the bit lengths add up to more than 257, the product needs more than 256 bits. */
  lemma LongProduct(a: nat, b: nat)
    requires BitLength(a) + BitLength(b) > 257 && a > 0 && b > 0
    ensures Mul(a, b) >= TWO_256
  {
    hide Pow2, BitLength;
    BitLengthBounds(a);
    BitLengthBounds(b);
    WeightIsPower(4);
    WordWeight();
    Pow2Add(BitLength(a) - 1, BitLength(b) - 1);
    Pow2Grows(256, BitLength(a) + BitLength(b) - 2);
    MulBoth(Pow2(BitLength(a) - 1), a, Pow2(BitLength(b) - 1), b);
  }

  lemma MulBoth(a: nat, a': nat, b: nat, b': nat)
    requires a <= a' && b <= b'
    ensures a * b <= a' * b'
  {
    MulGrows(a, a', b);
    MulGrows(b, b', a');
  }

  /** Otherwise no product of two limbs that would land above the word is non-zero. */
  lemma NoHighProducts(a: Limbs, b: Limbs, i: nat, j: nat)
    requires BitLength(Value(a)) + BitLength(Value(b)) <= 257 && i < 4 && j < 4 && i + j >= 4 && a[i] > 0
    ensures b[j] == 0
  {
    hide Value, BitLength;
    NonzeroLimb(a, i);
    if b[j] > 0 {
      NonzeroLimb(b, j);
    }
  }

  lemma ProductFits(x: U64, y: U64, r: U64, c: U64)
    ensures Mul(x, y) + r + c < TWO_64 * TWO_64
  {
    MulBoth(x, U64_MAX, y, U64_MAX);
  }

  lemma MulColumn(v: nat, c: nat, w: nat, old': nat, x: nat, p: nat, y: nat, wi: nat, wj: nat, d: nat, c': nat, o: nat)
    requires v + c * w == old' + x * wi * p && wi * wj == w && x * y + o + c == d + TWO_64 * c'
    ensures v - o * w + d * w + c' * (TWO_64 * w) == old' + x * wi * (p + y * wj)
  {
    assert x * wi * (p + y * wj) == x * wi * p + x * y * (wi * wj);
    assert (x * y + o + c) * w == x * y * w + o * w + c * w;
    assert (d + TWO_64 * c') * w == d * w + c' * (TWO_64 * w);
  }

  /** `result` with its carry is `before` plus a[i] times the `j` low limbs of `b`. */
  ghost predicate Row(a: Limbs, b: Limbs, i: nat, j: nat, before: Limbs, result: Limbs, carry: nat)
    requires i < 4 && j <= 4
  {
    Prefix(result, 4) + carry * Weight(i + j) == Prefix(before, 4) + a[i] * Weight(i) * Prefix(b, j)
  }

  lemma RowStep(a: Limbs, b: Limbs, i: nat, j: nat, before: Limbs, result: Limbs, carry: U64, product: nat)
    requires i + j < 4 && Row(a, b, i, j, before, result, carry)
    requires product == Mul(a[i], b[j]) + result[i + j] + carry
    ensures Row(a, b, i, j + 1, before, result[i + j := product % TWO_64], product / TWO_64)
  {
    hide Prefix, Weight;
    var d, c': nat := product % TWO_64, product / TWO_64;
    WeightAdd(i, j);
    MulColumn(Prefix(result, 4), carry, Weight(i + j), Prefix(before, 4), a[i], Prefix(b, j), b[j], Weight(i),
      Weight(j),
              d, c', result[i + j]);
    SetLimb(result, i + j, d, 4);
    PrefixNext(b, j);
    WeightNext(i + j);
  }

  lemma RowStart(a: Limbs, b: Limbs, i: nat, before: Limbs)
    requires i < 4
    ensures Row(a, b, i, 0, before, before, 0)
  {
    hide Weight;
  }

  lemma RowEnd(a: Limbs, b: Limbs, i: nat, before: Limbs, result: Limbs, carry: nat)
    requires i < 4 && a[i] > 0 && BitLength(Value(a)) + BitLength(Value(b)) <= 257
    requires Row(a, b, i, 4 - i, before, result, carry)
    ensures Value(result) + carry * TWO_256 == Value(before) + a[i] * Weight(i) * Value(b)
    ensures i > 0 ==> b[4 - i] == 0
  {
    hide Prefix, Weight, BitLength;
    forall j | 4 - i <= j < 4
      ensures b[j] == 0
    {
      NoHighProducts(a, b, i, j);
    }
    ZeroAbove(b, 4 - i, 4);
    WordWeight();
  }

  /** One row: adds a[i] * b at limb `i`, or reports that the sum leaves the word. */
  method AddRow(a: Limbs, b: Limbs, i: nat, before: Limbs) returns (result: Limbs, overflow: bool)
    requires i < 4 && a[i] > 0 && BitLength(Value(a)) + BitLength(Value(b)) <= 257
    ensures overflow <==> Value(before) + a[i] * Weight(i) * Value(b) >= TWO_256
    ensures !overflow ==> Value(result) == Value(before) + a[i] * Weight(i) * Value(b)
  {
    hide Value, Weight, BitLength, Row, Mul;
    result := before;
    var carry: U64 := 0;
    RowStart(a, b, i, before);
    for j := 0 to 4
      invariant i + j <= 4 && Row(a, b, i, j, before, result, carry)
    {
      if i + j >= 4 {
        RowEnd(a, b, i, before, result, carry);
        overflow := Mul(a[i], b[j]) + carry > 0;
        MulZero(a[i]);
        return;
      }
      ProductFits(a[i], b[j], result[i + j], carry);
      var product := Mul(a[i], b[j]) + result[i + j] + carry;
      RowStep(a, b, i, j, before, result, carry, product);
      result := result[i + j := product % TWO_64];
      carry := product / TWO_64;
    }
    RowEnd(a, b, i, before, result, carry);
    overflow := carry > 0;
  }

  lemma MulZero(x: nat)
    ensures Mul(x, 0) == 0
  {
  }

  /**
   Exact multiplication: a result exactly when the product fits in 256 bits. The bit-length
   test makes all limb products that the rows skip zero.
   */
  method CheckedMulLimbs(a: Limbs, b: Limbs) returns (r: Option<Limbs>)
    ensures ValueOf(r) == CheckedMul(Value(a), Value(b))
  {
    hide Value, Prefix, Weight, BitLength, Mul;
    IsZeroValue(a);
    IsZeroValue(b);
    ZeroLimbs();
    SimpleProducts(Value(a), Value(b));
    if IsZero(a) || IsZero(b) {
      return Some(ZERO);
    }
    if a == ONE {
      return Some(b);
    }
    if b == ONE {
      return Some(a);
    }
    var zerosA := LeadingZeros(a);
    var zerosB := LeadingZeros(b);
    if 256 - zerosA + (256 - zerosB) > 257 {
      LongProduct(Value(a), Value(b));
      return None;
    }
    var result := ZERO;
    RowsNone(a, b);
    for i := 0 to 4
      invariant Value(result) == Mul(Prefix(a, i), Value(b))
    {
      RowsNext(a, b, i);
      if a[i] != 0 {
        var overflow;
        result, overflow := AddRow(a, b, i, result);
        if overflow {
          RowsBelow(a, b, i + 1);
          return None;
        }
      }
    }
    RowsBelow(a, b, 4);
    return Some(result);
  }

  lemma SimpleProducts(x: nat, y: nat)
    ensures (x == 0 || y == 0) ==> Mul(x, y) == 0
    ensures Mul(x, 1) == x && Mul(1, y) == y
  {
  }

  lemma RowsNone(a: Limbs, b: Limbs)
    ensures Mul(Prefix(a, 0), Value(b)) == 0
  {
    hide Value;
  }

  lemma RowsNext(a: Limbs, b: Limbs, i: nat)
    requires i < 4
    ensures Mul(Prefix(a, i + 1), Value(b)) == Mul(Prefix(a, i), Value(b)) + a[i] * Weight(i) * Value(b)
    ensures a[i] == 0 ==> Mul(Prefix(a, i + 1), Value(b)) == Mul(Prefix(a, i), Value(b))
  {
    hide Value, Prefix, Weight;
    PrefixNext(a, i);
    Spread(Prefix(a, i), a[i] * Weight(i), Value(b));
  }

  lemma Spread(x: nat, y: nat, v: nat)
    ensures (x + y) * v == x * v + y * v
  {
  }

  lemma RowsBelow(a: Limbs, b: Limbs, n: nat)
    requires n <= 4
    ensures Mul(Prefix(a, n), Value(b)) <= Mul(Value(a), Value(b))
    ensures n == 4 ==> Mul(Prefix(a, n), Value(b)) == Mul(Value(a), Value(b))
  {
    hide Weight, Prefix;
    SplitPrefix(a, n, 4);
    MulGrows(Prefix(a, n), Value(a), Value(b));
  }

  // ----- Bitwise or

  function OrLimbs(a: Limbs, b: Limbs): (r: Limbs) {
    [Or64(a[0], b[0]), Or64(a[1], b[1]), Or64(a[2], b[2]), Or64(a[3], b[3])]
  }

  /** Limb-wise or is bitwise or of the numbers. */
  lemma OrLimbsValue(a: Limbs, b: Limbs)
    ensures Value(OrLimbs(a, b)) == Or(Value(a), Value(b))
  {
    hide Or, Weight, Prefix, Value, Pow2;
    LimbWidth();
    Horner(a);
    Horner(b);
    Horner(OrLimbs(a, b));
    OrSplit(a[2], a[3], b[2], b[3], 64);
    OrSplit(a[1], a[2] + TWO_64 * a[3], b[1], b[2] + TWO_64 * b[3], 64);
    OrSplit(a[0], a[1] + TWO_64 * (a[2] + TWO_64 * a[3]), b[0], b[1] + TWO_64 * (b[2] + TWO_64 * b[3]), 64);
  }

  lemma Horner(x: Limbs)
    ensures Value(x) == x[0] + TWO_64 * (x[1] + TWO_64 * (x[2] + TWO_64 * x[3]))
  {
    assert Prefix(x, 1) == x[0];
    assert Prefix(x, 2) == x[0] + x[1] * TWO_64;
    assert Prefix(x, 3) == x[0] + x[1] * TWO_64 + x[2] * (TWO_64 * TWO_64);
    assert Weight(3) == TWO_64 * TWO_64 * TWO_64;
  }

  // ----- Division

  /**
   Long division with `i` quotient bits still to find: `a` is quotient times `b` plus
   remainder, the quotient's low `i` bits are clear, and the remainder is below b * 2^i.
   */
  ghost predicate Dividing(a: nat, b: nat, quotient: nat, remainder: nat, i: nat) {
    && a == quotient * b + remainder
    && quotient % Pow2(i) == 0
    && remainder < b * Pow2(i)
  }

  lemma DivideStart(a: Word, b: Word)
    requires 0 < b <= a
    ensures BitLength(b) <= BitLength(a) <= 256
    ensures var shift := BitLength(a) - BitLength(b);
            b * Pow2(shift) < TWO_256 && Dividing(a, b, 0, a, shift + 1)
  {
    hide Pow2, BitLength;
    BitLengthBounds(a);
    BitLengthBounds(b);
    LengthOrder(a, b);
    WeightIsPower(4);
    WordWeight();
    if BitLength(a) > 256 {
      Pow2Grows(256, BitLength(a) - 1);
    }
    var shift := BitLength(a) - BitLength(b);
    Pow2Add(BitLength(b), shift);
    MulGrows(b + 1, Pow2(BitLength(b)), Pow2(shift));
    Pow2Grows(BitLength(a), 256);
    Pow2Add(BitLength(b) - 1, shift + 1);
    MulGrows(Pow2(BitLength(b) - 1), b, Pow2(shift + 1));
    DivModUnique(0, Pow2(shift + 1), 0, 0);
  }

  lemma LengthOrder(a: nat, b: nat)
    requires 0 < b <= a
    ensures BitLength(b) <= BitLength(a)
  {
    hide Pow2, BitLength;
    BitLengthBounds(a);
    BitLengthBounds(b);
    if BitLength(b) > BitLength(a) {
      Pow2Grows(BitLength(a), BitLength(b) - 1);
    }
  }

  /** A quotient bit is found: the divisor fits, so it is taken away and the bit is set. */
  lemma DivideTake(a: nat, b: nat, q: nat, r: nat, i: nat)
    requires Dividing(a, b, q, r, i + 1) && r >= b * Pow2(i)
    ensures Or(q, Pow2(i)) == q + Pow2(i)
    ensures Dividing(a, b, q + Pow2(i), r - b * Pow2(i), i)
  {
    hide Or, Pow2;
    var p, m := Pow2(i), q / Pow2(i + 1);
    PowNext(i);
    OrDisjoint(q, p, i + 1);
    Spread(q, p, b);
    TakeMultiple(m, p);
    DivModUnique(q + p, p, 2 * m + 1, 0);
    TakeRest(b, p, r);
    Swap(p, b);
  }

  lemma Swap(x: nat, y: nat)
    ensures x * y == y * x
  {
  }

  lemma TakeMultiple(m: nat, p: nat)
    ensures m * (2 * p) + p == (2 * m + 1) * p
  {
  }

  lemma TakeRest(b: nat, p: nat, r: nat)
    requires b * p <= r < b * (2 * p)
    ensures r - b * p < b * p
  {
  }

  /** The bit stays clear. */
  lemma DivideSkip(a: nat, b: nat, q: nat, r: nat, i: nat)
    requires Dividing(a, b, q, r, i + 1) && r < b * Pow2(i)
    ensures Dividing(a, b, q, r, i)
  {
    var p, m := Pow2(i), q / Pow2(i + 1);
    assert q == m * (2 * p);
    SkipMultiple(m, p);
    DivModUnique(q, p, 2 * m, 0);
  }

  lemma SkipMultiple(m: nat, p: nat)
    ensures m * (2 * p) == (2 * m) * p
  {
  }

  lemma DivideEnd(a: nat, b: nat, q: nat, r: nat)
    requires b > 0 && Dividing(a, b, q, r, 0)
    ensures a / b == q
  {
    DivModUnique(a, b, q, r);
  }

  lemma HalfDivisor(b: nat, i: nat)
    requires i > 0
    ensures (b * Pow2(i)) / Pow2(1) == b * Pow2(i - 1)
  {
    var p := Pow2(i - 1);
    assert Pow2(1) == 2;
    assert b * (2 * p) == 2 * (b * p);
  }

  lemma BitFits(a: Word, b: nat, q: nat, r: nat, i: nat)
    requires b > 0 && Dividing(a, b, q, r, i) && Pow2(i) <= q
    ensures Pow2(i) < TWO_256 && (1 * Pow2(i)) % TWO_256 == Pow2(i)
  {
    MulGrows(1, b, q);
  }

  /** Finds one quotient bit. */
  method DivideBit(quotient: Limbs, remainder: Limbs, divisor: Limbs, i: nat, ghost a: Word, ghost b: nat)
    returns (quotient': Limbs, remainder': Limbs)
    requires b > 0 && Dividing(a, b, Value(quotient), Value(remainder), i + 1) && Value(divisor) == b * Pow2(i)
    ensures Dividing(a, b, Value(quotient'), Value(remainder'), i)
  {
    hide Value, Pow2, Or, Dividing, OrLimbs;
    quotient', remainder' := quotient, remainder;
    var order := Compare(remainder, divisor);
    if order >= 0 {
      DivideTake(a, b, Value(quotient), Value(remainder), i);
      BitFits(a, b, Value(quotient) + Pow2(i), Value(remainder) - b * Pow2(i), i);
      ZeroLimbs();
      var rest := CheckedSub(remainder, divisor);
      remainder' := rest.value;
      var bit := ShiftLeft(ONE, i);
      OrLimbsValue(quotient, bit);
      quotient' := OrLimbs(quotient, bit);
    } else {
      DivideSkip(a, b, Value(quotient), Value(remainder), i);
    }
  }

  /** Floor division; only division by zero fails. */
  method CheckedDiv(a: Limbs, b: Limbs) returns (r: Option<Limbs>)
    ensures ValueOf(r) == if Value(b) == 0 then None else Some(Value(a) / Value(b))
  {
    hide Value, Pow2, BitLength, Or, Dividing, OrLimbs;
    IsZeroValue(a);
    IsZeroValue(b);
    ZeroLimbs();
    if IsZero(b) {
      return None;
    }
    if IsZero(a) {
      return Some(ZERO);
    }
    var c := Compare(a, b);
    if c < 0 {
      DivModUnique(Value(a), Value(b), 0, Value(a));
      return Some(ZERO);
    }
    if b == ONE {
      return Some(a);
    }
    var quotient, remainder := ZERO, a;
    var zerosA := LeadingZeros(a);
    var zerosB := LeadingZeros(b);
    DivideStart(Value(a), Value(b));
    var shift := zerosB - zerosA;
    var divisor := ShiftLeft(b, shift);
    for i := shift + 1 downto 0
      invariant Dividing(Value(a), Value(b), Value(quotient), Value(remainder), i)
      invariant i > 0 ==> Value(divisor) == Value(b) * Pow2(i - 1)
    {
      quotient, remainder := DivideBit(quotient, remainder, divisor, i, Value(a), Value(b));
      divisor := ShiftRight(divisor, 1);
      if i > 0 {
        HalfDivisor(Value(b), i);
      }
    }
    DivideEnd(Value(a), Value(b), Value(quotient), Value(remainder));
    return Some(quotient);
  }

  /** The remainder; it never fails for a non-zero divisor. */
  method CheckedRem(a: Limbs, b: Limbs) returns (r: Option<Limbs>)
    ensures ValueOf(r) == if Value(b) == 0 then None else Some(Value(a) % Value(b))
  {
    hide Value, Mul;
    IsZeroValue(b);
    if IsZero(b) {
      return None;
    }
    QuotientTimes(Value(a), Value(b));
    var quotient := CheckedDiv(a, b);
    var product := CheckedMulLimbs(quotient.value, b);
    r := CheckedSub(a, product.value);
  }

  lemma QuotientTimes(a: Word, b: Word)
    requires b > 0
    ensures Mul(a / b, b) <= a && a - Mul(a / b, b) == a % b && a % b < TWO_256
  {
  }

  // ----- Power

  function Pow(a: nat, e: nat): (r: nat) {
    if e == 0 then 1 else Mul(a, Pow(a, e - 1))
  }

  lemma {:induction false} PowSquare(a: nat, e: nat)
    ensures Pow(Mul(a, a), e) == Pow(a, 2 * e)
  {
    if e > 0 {
      PowSquare(a, e - 1);
      var p := Pow(a, 2 * e - 2);
      assert Pow(a, 2 * e) == Mul(a, Pow(a, 2 * e - 1)) && Pow(a, 2 * e - 1) == Mul(a, p);
      Assoc(a, a, p);
    }
  }

  lemma {:induction false} PowPositive(a: nat, e: nat)
    requires a > 0
    ensures Pow(a, e) >= 1 && (e > 0 ==> Pow(a, e) >= a)
  {
    if e > 0 {
      PowPositive(a, e - 1);
      MulGrows(1, Pow(a, e - 1), a);
    }
  }

  /** One bit of the exponent: an odd exponent gives up one factor, then the base is squared. */
  lemma PowHalve(base: nat, e: nat)
    requires e > 0
    ensures Pow(base, e) == if e % 2 == 1 then Mul(base, Pow(Mul(base, base), e / 2)) else Pow(Mul(base, base), e / 2)
  {
    hide Mul;
    PowSquare(base, e / 2);
    assert e == 2 * (e / 2) + e % 2;
  }

  /** If a partial result or the squared base is too big, so is the power; zero bases never are. */
  lemma PowTooBig(result: nat, base: nat, e: nat, total: nat)
    requires Mul(result, Pow(base, e)) == total && result > 0
    ensures e > 0 && base > 0 ==> Mul(result, base) <= total
    ensures base > 0 ==> result <= total
  {
    if base > 0 {
      PowPositive(base, e);
      MulGrows(1, Pow(base, e), result);
      if e > 0 {
        MulGrows(base, Pow(base, e), result);
      }
    }
  }

  /** Square and multiply: a result exactly when the power fits in 256 bits. */
  method CheckedPow(a: Limbs, exponent: nat) returns (r: Option<Limbs>)
    ensures ValueOf(r) == if Pow(Value(a), exponent) < TWO_256 then Some(Pow(Value(a), exponent)) else None
  {
    hide Value, Mul, Pow;
    ZeroLimbs();
    ghost var total := Pow(Value(a), exponent);
    PowNone(Value(a));
    if exponent == 0 {
      return Some(ONE);
    }
    var base, exp, result := a, exponent, ONE;
    SimpleProducts(1, total);
    while exp > 0
      invariant Mul(Value(result), Pow(Value(base), exp)) == total
      invariant Value(base) > 0 ==> Value(result) > 0
    {
      PowStep(Value(result), Value(base), exp, total);
      if exp % 2 == 1 {
        var product := CheckedMulLimbs(result, base);
        if product.None? {
          return None;
        }
        result := product.value;
      }
      exp := exp / 2;
      if exp > 0 {
        PowTooBigNext(Value(result), Mul(Value(base), Value(base)), exp, total);
        var square := CheckedMulLimbs(base, base);
        if square.None? {
          return None;
        }
        base := square.value;
      } else {
        PowNone(Mul(Value(base), Value(base)));
        PowNone(Value(base));
      }
    }
    PowNone(Value(base));
    SimpleProducts(Value(result), 1);
    return Some(result);
  }

  lemma PowNone(a: nat)
    ensures Pow(a, 0) == 1
  {
  }

  lemma PowStep(result: nat, base: nat, e: nat, total: nat)
    requires e > 0 && Mul(result, Pow(base, e)) == total && (base > 0 ==> result > 0)
    ensures e % 2 == 1 ==> Mul(Mul(result, base), Pow(Mul(base, base), e / 2)) == total
    ensures base > 0 ==> Mul(result, base) > 0
    ensures e % 2 == 0 ==> Mul(result, Pow(Mul(base, base), e / 2)) == total
    ensures Mul(result, base) >= TWO_256 ==> total >= TWO_256
    ensures base == 0 <==> Mul(base, base) == 0
  {
    hide Pow;
    PowHalve(base, e);
    Assoc(result, base, Pow(Mul(base, base), e / 2));
    if base > 0 {
      PowTooBig(result, base, e, total);
      MulGrows(1, result, base);
      MulGrows(1, base, base);
    }
  }

  lemma PowTooBigNext(result: nat, square: nat, e: nat, total: nat)
    requires e > 0 && Mul(result, Pow(square, e)) == total && (square > 0 ==> result > 0)
    ensures square >= TWO_256 ==> total >= TWO_256
  {
    hide Pow;
    if square > 0 {
      PowTooBig(result, square, e, total);
      MulGrows(1, result, square);
    }
  }

  // ----- Bytes

  lemma ByteMore(h: nat, p: nat)
    ensures h * (256 * p) == 256 * (h * p)
  {
  }

  lemma {:induction false} BytesSplit(high: Bytes, low: Bytes)
    ensures FromBigEndian(high + low) == FromBigEndian(high) * Pow256(|low|) + FromBigEndian(low)
    decreases |low|
  {
    if low == [] {
      assert high + low == high;
    } else {
      var n := |low| - 1;
      BytesSplit(high, low[..n]);
      assert (high + low)[..|high| + n] == high + low[..n];
      assert (high + low)[|high| + n] == low[n];
      ByteMore(FromBigEndian(high), Pow256(n));
    }
  }

  lemma LimbBytes()
    ensures Pow256(8) == TWO_64
  {
    assert Pow256(4) == 0x1_0000_0000;
  }

  lemma {:induction false} WeightBytes(i: nat)
    ensures Weight(i) == Pow256(8 * i)
  {
    if i > 0 {
      WeightBytes(i - 1);
      LimbBytes();
      EightMore(8 * (i - 1));
    }
  }

  lemma EightMore(n: nat)
    ensures Pow256(n + 8) == TWO_64 * Pow256(n)
  {
    assert Pow256(n + 2) == 256 * Pow256(n + 1);
    assert Pow256(n + 4) == 256 * Pow256(n + 3) && Pow256(n + 3) == 256 * Pow256(n + 2);
    assert Pow256(n + 6) == 256 * Pow256(n + 5) && Pow256(n + 5) == 256 * Pow256(n + 4);
    assert Pow256(n + 8) == 256 * Pow256(n + 7) && Pow256(n + 7) == 256 * Pow256(n + 6);
  }

  function LimbFromBytes(bytes: Bytes): (r: U64)
    requires |bytes| == 8
  {
    BytesBound(bytes);
    LimbBytes();
    FromBigEndian(bytes)
  }

  method FromBeBytes(bytes: Bytes) returns (x: Limbs)
    requires |bytes| == 32
    ensures Value(x) == FromBigEndian(bytes)
  {
    hide Prefix, Weight, FromBigEndian, Pow256;
    x := ZERO;
    PrefixNone(x);
    NoBytes();
    assert bytes[32..] == [];
    for i := 0 to 4
      invariant Prefix(x, i) == FromBigEndian(bytes[32 - 8 * i..])
    {
      var offset := (3 - i) * 8;
      var limb := LimbFromBytes(bytes[offset..offset + 8]);
      assert bytes[offset..] == bytes[offset..offset + 8] + bytes[offset + 8..];
      BytesSplit(bytes[offset..offset + 8], bytes[offset + 8..]);
      WeightBytes(i);
      PrefixFrame(x, x[i := limb], i);
      x := x[i := limb];
      PrefixNext(x, i);
    }
    assert bytes[0..] == bytes;
  }

  lemma NoBytes()
    ensures FromBigEndian([]) == 0
  {
  }

  /** The bytes of a word; reading them back gives the word. */
  method ToBeBytes(x: Limbs) returns (bytes: Bytes)
    ensures bytes == BigEndian(Value(x), 32) && FromBigEndian(bytes) == Value(x)
  {
    hide Prefix, Weight, FromBigEndian, Pow256, BigEndian;
    bytes := [];
    NoBytes();
    SplitPrefix(x, 4, 4);
    PrefixNone(x[4..]);
    for i := 0 to 4
      invariant |bytes| == 8 * i && FromBigEndian(bytes) == Prefix(x[4 - i..], i)
    {
      var limb := BigEndian(x[3 - i], 8);
      LimbBytesInvert(x[3 - i]);
      BytesSplit(bytes, limb);
      LimbBytes();
      LowLimb(x[3 - i..], i);
      assert x[3 - i..][1..] == x[4 - i..];
      bytes := bytes + limb;
    }
    assert x[0..] == x;
    BytesInvert(bytes);
  }

  lemma LimbBytesInvert(n: U64)
    ensures FromBigEndian(BigEndian(n, 8)) == n
  {
    hide Pow256;
    LimbBytes();
    BigEndianInvert(n, 8);
  }

  lemma LowLimb(s: seq<U64>, n: nat)
    requires n + 1 <= |s|
    ensures Prefix(s, n + 1) == s[0] + Prefix(s[1..], n) * TWO_64
  {
    hide Weight;
    SplitPrefix(s, 1, n + 1);
    PrefixNext(s, 0);
    WeightZero();
    WeightNext(0);
  }
}
