/** Fixed-width numbers, byte strings and failure types shared by every component. */
module Primitives {

  datatype Option<+T> = None | Some(value: T)

  datatype Result<+T, +E> = Ok(value: T) | Err(error: E)

  const TWO_64: int := 0x1_0000_0000_0000_0000
  const U64_MAX: int := 0xFFFF_FFFF_FFFF_FFFF
  const TWO_160: int := 0x1_0000_0000_0000_0000_0000_0000_0000_0000_0000_0000
  const TWO_256: int :=
    0x1_0000_0000_0000_0000_0000_0000_0000_0000_0000_0000_0000_0000_0000_0000_0000_0000

  type Byte = b: int | 0 <= b < 256
  type Bytes = seq<Byte>
  type U64 = n: int | 0 <= n < TWO_64

  /** A 256-bit amount; `Uint` shows that the limb arithmetic computes on these values. */
  type Word = n: int | 0 <= n < TWO_256

  /** A 32-byte digest read big-endian, so byte-wise order is numeric order. */
  type H256 = n: int | 0 <= n < TWO_256

  /** A 20-byte address read big-endian. */
  type Address = n: int | 0 <= n < TWO_160

  const ZERO_HASH: H256 := 0

  function SaturatingAdd64(a: U64, b: U64): (r: U64) {
    if a + b > U64_MAX then U64_MAX else a + b
  }

  function SaturatingMul64(a: U64, b: U64): (r: U64) {
    if Mul(a, b) > U64_MAX then U64_MAX else Mul(a, b)
  }

  function CheckedAdd(a: Word, b: Word): (r: Option<Word>) {
    if a + b < TWO_256 then Some(a + b) else None
  }

  /** Multiplication under a name, so that proofs can treat products as plain numbers. */
  function Mul(a: nat, b: nat): (r: nat) {
    a * b
  }

  function CheckedMul(a: Word, b: Word): (r: Option<Word>) {
    if Mul(a, b) < TWO_256 then Some(Mul(a, b)) else None
  }

  function SaturatingSub(a: nat, b: nat): (r: nat) {
    if a < b then 0 else a - b
  }

  function Get<K, V>(m: map<K, V>, k: K): (r: Option<V>) {
    if k in m then Some(m[k]) else None
  }

  function GetOr<K, V>(m: map<K, V>, k: K, default: V): (r: V) {
    if k in m then m[k] else default
  }

  lemma SameLookups<K, V>(m: map<K, V>, n: map<K, V>)
    requires forall k :: Get(m, k) == Get(n, k)
    ensures m == n
  {
    forall k | k in m || k in n
      ensures k in m && k in n && m[k] == n[k]
    {
      assert Get(m, k) == Get(n, k);
    }
  }

  /** The map a pair list denotes: of several values for one key the last one counts. */
  function MapOf<K, V>(pairs: seq<(K, V)>): (m: map<K, V>) {
    if pairs == [] then map[]
    else
      var n := |pairs| - 1;
      MapOf(pairs[..n])[pairs[n].0 := pairs[n].1]
  }

  lemma MapOfAppend<K, V>(pairs: seq<(K, V)>, k: K, v: V)
    ensures MapOf(pairs + [(k, v)]) == MapOf(pairs)[k := v]
  {
    assert (pairs + [(k, v)])[..|pairs|] == pairs;
  }

  /** The entries of `m`, in some order. */
  method ListOf<K(==), V>(m: map<K, V>) returns (pairs: seq<(K, V)>)
    ensures MapOf(pairs) == m
  {
    pairs := [];
    var left := m.Keys;
    while left != {}
      invariant left <= m.Keys
      invariant MapOf(pairs) == m - left
    {
      var k :| k in left;
      MapOfAppend(pairs, k, m[k]);
      pairs := pairs + [(k, m[k])];
      left := left - {k};
    }
  }

  /** The `width` low-order bytes of `n`, most significant first. */
  function BigEndian(n: nat, width: nat): (r: Bytes)
    ensures |r| == width
  {
    if width == 0 then [] else BigEndian(n / 256, width - 1) + [n % 256]
  }

  function FromBigEndian(bytes: Bytes): (r: nat) {
    if bytes == [] then 0
    else
      var n := |bytes| - 1;
      256 * FromBigEndian(bytes[..n]) + bytes[n]
  }

  function Pow256(width: nat): (r: nat)
    ensures r > 0
  {
    if width == 0 then 1 else 256 * Pow256(width - 1)
  }

  /** Fixed-width big-endian encoding loses nothing on numbers that fit. */
  lemma {:induction false} BigEndianInvert(n: nat, width: nat)
    requires n < Pow256(width)
    ensures FromBigEndian(BigEndian(n, width)) == n
  {
    if width != 0 {
      BigEndianInvert(n / 256, width - 1);
      assert BigEndian(n, width)[..width - 1] == BigEndian(n / 256, width - 1);
    }
  }

  lemma Steps(d: nat, a: nat, b: nat)
    ensures a < b ==> d * a + d <= d * b
  {
    assert a < b ==> d * b == d * (a + 1) + d * (b - a - 1);
  }

  lemma Quotient(n: nat, d: nat, q: nat, r: nat)
    requires n == d * q + r && r < d
    ensures n / d == q
  {
    var k := n / d;
    assert n == d * k + n % d;
    Steps(d, k, q);
    Steps(d, q, k);
  }

  lemma DividedTwice(n: nat, p: nat)
    requires p > 0
    ensures n / 256 / p == n / (256 * p)
  {
    var q := n / 256;
    var a, b := q / p, q % p;
    assert 256 * q == 256 * (p * a) + 256 * b;
    assert 256 * (p * a) == (256 * p) * a;
    assert 256 * b + n % 256 < 256 * p;
    Quotient(n, 256 * p, a, 256 * b + n % 256);
  }

  /** Byte `i` of `width` is the digit of weight 256^(width - 1 - i): the first byte is the most significant. */
  lemma {:induction false} BigEndianAt(n: nat, width: nat, i: nat)
    requires i < width
    ensures BigEndian(n, width)[i] == n / Pow256(width - 1 - i) % 256
  {
    if i < width - 1 {
      BigEndianAt(n / 256, width - 1, i);
      DividedTwice(n, Pow256(width - 2 - i));
    }
  }

  lemma {:induction false} BytesBound(bytes: Bytes)
    ensures FromBigEndian(bytes) < Pow256(|bytes|)
    decreases |bytes|
  {
    if bytes != [] {
      BytesBound(bytes[..|bytes| - 1]);
    }
  }

  /** Big-endian digits are unique. */
  lemma {:induction false} BytesInvert(bytes: Bytes)
    ensures BigEndian(FromBigEndian(bytes), |bytes|) == bytes
    decreases |bytes|
  {
    if bytes != [] {
      BytesInvert(bytes[..|bytes| - 1]);
    }
  }

  lemma AddressWidth()
    ensures Pow256(20) == TWO_160
  {
    assert Pow256(4) == 0x1_0000_0000;
    assert Pow256(8) == 0x1_0000_0000_0000_0000;
    assert Pow256(12) == 0x1_0000_0000_0000_0000_0000_0000;
    assert Pow256(16) == 0x1_0000_0000_0000_0000_0000_0000_0000_0000;
  }

  lemma WordWidth()
    ensures Pow256(32) == TWO_256
  {
    AddressWidth();
    assert Pow256(24) == 0x1_0000_0000_0000_0000_0000_0000_0000_0000_0000_0000_0000_0000;
    assert Pow256(28) == 0x1_0000_0000_0000_0000_0000_0000_0000_0000_0000_0000_0000_0000_0000_0000;
  }

  lemma WordBytesInvert(n: Word)
    ensures FromBigEndian(BigEndian(n, 32)) == n
  {
    WordWidth();
    BigEndianInvert(n, 32);
  }

  lemma AddressBytesInvert(n: Address)
    ensures FromBigEndian(BigEndian(n, 20)) == n
  {
    AddressWidth();
    BigEndianInvert(n, 20);
  }
}
