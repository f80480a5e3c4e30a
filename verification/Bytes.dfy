/** Byte strings, big-endian integers and single bits, as the AVM and Go's encoding/binary see them. */
module Bytes {

  datatype Option<+T> = None | Some(value: T)

  type byte = x: int | 0 <= x < 256
  type bytes = seq<byte>

  const U16: nat := 0x1_0000
  const U32: nat := 0x1_0000_0000
  const U64: nat := 0x1_0000_0000_0000_0000

  /** Big-endian value of a byte string (Btoi; binary.Read with BigEndian). */
  function ToInt(b: bytes): (n: nat)
  {
    if b == [] then 0 else 256 * ToInt(b[..|b| - 1]) + b[|b| - 1]
  }

  /** The low `w` bytes of `n`, most significant first (Itob; binary.Write with BigEndian). */
  function FromInt(n: nat, w: nat): (b: bytes)
    ensures |b| == w
  {
    seq(w, i requires 0 <= i < w => Digit(n, w - 1 - i))
  }

  /** Byte `k` of `n`, counted from the least significant. */
  function Digit(n: nat, k: nat): byte
  {
    if k == 0 then n % 256 else Digit(n / 256, k - 1)
  }

  lemma FromIntStep(n: nat, w: nat)
    requires w > 0
    ensures FromInt(n, w) == FromInt(n / 256, w - 1) + [n % 256]
  {
    forall i | 0 <= i < w
      ensures FromInt(n, w)[i] == (FromInt(n / 256, w - 1) + [n % 256])[i]
    {
      assert i < w - 1 ==> Digit(n, w - 1 - i) == Digit(n / 256, w - 2 - i);
    }
  }

  lemma TwoBytes(n: nat)
    requires n < 256
    ensures FromInt(n, 2) == [0, n]
  {
    FromIntStep(n, 2);
    FromIntStep(n / 256, 1);
  }

  function Pow256(w: nat): (p: nat)
    ensures p > 0
  {
    if w == 0 then 1 else 256 * Pow256(w - 1)
  }

  lemma {:induction false} ToIntFromInt(n: nat, w: nat)
    requires n < Pow256(w)
    ensures ToInt(FromInt(n, w)) == n
  {
    if w != 0 {
      ToIntFromInt(n / 256, w - 1);
      FromIntStep(n, w);
      assert FromInt(n, w)[..w - 1] == FromInt(n / 256, w - 1);
    }
  }

  lemma {:induction false} FromIntToInt(b: bytes)
    ensures ToInt(b) < Pow256(|b|)
    ensures FromInt(ToInt(b), |b|) == b
  {
    if b != [] {
      FromIntToInt(b[..|b| - 1]);
      FromIntStep(ToInt(b), |b|);
      assert b == b[..|b| - 1] + [b[|b| - 1]];
    }
  }

  /** The exclusive bound of the integer types of 1, 2, 4 and 8 bytes. */
  function Bound(w: nat): nat
  {
    if w == 1 then 256 else if w == 2 then U16 else if w == 4 then U32 else U64
  }

  lemma Widths(w: nat)
    requires w in {1, 2, 4, 8}
    ensures Pow256(w) == Bound(w)
  {
    assert Pow256(1) == 256;
    assert Pow256(2) == 65536;
    assert Pow256(3) == 16777216;
    assert Pow256(4) == U32;
    assert Pow256(5) == 256 * U32;
    assert Pow256(6) == 65536 * U32;
    assert Pow256(7) == 16777216 * U32;
  }

  /** Reading a field and writing it again gives the same bytes. */
  lemma Fits(b: bytes, w: nat)
    requires |b| == w && w in {1, 2, 4, 8}
    ensures ToInt(b) < Bound(w) && FromInt(ToInt(b), w) == b
  {
    Widths(w);
    FromIntToInt(b);
  }

  /** Writing a number in range and reading it again gives the same number. */
  lemma Reads(n: nat, w: nat)
    requires w in {1, 2, 4, 8} && n < Bound(w)
    ensures ToInt(FromInt(n, w)) == n
  {
    Widths(w);
    ToIntFromInt(n, w);
  }

  /** Equal-width encodings determine the number. */
  lemma SameInt(m: nat, n: nat, w: nat)
    requires w in {1, 2, 4, 8} && m < Bound(w) && n < Bound(w)
    requires FromInt(m, w) == FromInt(n, w)
    ensures m == n
  {
    Reads(m, w);
    Reads(n, w);
  }

  lemma SubSlice(s: bytes, a: nat, b: nat, x: nat, y: nat)
    requires a <= b <= |s| && x <= y <= b - a
    ensures s[a..b][x..y] == s[a + x..a + y]
  {
    assert forall i :: 0 <= i < y - x ==> s[a..b][x..y][i] == s[a + x + i];
  }

  function Zeros(n: nat): (z: bytes)
    ensures |z| == n
  {
    seq(n, _ => 0)
  }

  /** Left padding with zero bytes does not change the value. */
  lemma {:induction false} ToIntPadded(n: nat, b: bytes)
    ensures ToInt(Zeros(n) + b) == ToInt(b)
  {
    if b == [] {
      if n != 0 {
        ToIntPadded(n - 1, []);
        assert (Zeros(n) + [])[..n - 1] == Zeros(n - 1) + [];
      }
    } else {
      var init := b[..|b| - 1];
      ToIntPadded(n, init);
      assert (Zeros(n) + b)[..n + |b| - 1] == Zeros(n) + init;
    }
  }

  /** Bit `i` of a uint64, least significant first: AVM getbit on an integer. */
  predicate GetBit(b: nat, i: nat)
  {
    if i == 0 then b % 2 == 1 else GetBit(b / 2, i - 1)
  }

  /** Bit `i` set to one: AVM setbit on an integer. */
  function SetBit(b: nat, i: nat): (r: nat)
  {
    if i == 0 then b / 2 * 2 + 1 else 2 * SetBit(b / 2, i - 1) + b % 2
  }

  lemma {:induction false} SetBitGets(b: nat, i: nat, j: nat)
    ensures GetBit(SetBit(b, i), j) <==> i == j || GetBit(b, j)
  {
    if i == 0 {
      if j != 0 { assert SetBit(b, 0) / 2 == b / 2; }
    } else {
      var s := SetBit(b / 2, i - 1);
      assert SetBit(b, i) / 2 == s && SetBit(b, i) % 2 == b % 2;
      if j != 0 { SetBitGets(b / 2, i - 1, j - 1); }
    }
  }

  /** Setting one of the low eight bits keeps a byte a byte. */
  lemma {:induction false} SetBitByte(b: nat, i: nat, w: nat)
    requires i < w && b < Pow2(w)
    ensures SetBit(b, i) < Pow2(w)
  {
    assert Pow2(w) == 2 * Pow2(w - 1);
    if i != 0 {
      SetBitByte(b / 2, i - 1, w - 1);
    }
  }

  function Pow2(w: nat): (p: nat)
    ensures p > 0
  {
    if w == 0 then 1 else 2 * Pow2(w - 1)
  }

  /** Bit `i` is what a shift and mask would see. */
  lemma {:induction false} GetBitIsShift(b: nat, i: nat)
    ensures GetBit(b, i) <==> b / Pow2(i) % 2 == 1
  {
    if i != 0 {
      GetBitIsShift(b / 2, i - 1);
      DivDiv(b, Pow2(i - 1));
    }
  }

  lemma DivDiv(b: nat, p: nat)
    requires p > 0
    ensures b / 2 / p == b / (2 * p)
  {
    var q := b / (2 * p);
    var r := b % (2 * p);
    assert b == 2 * p * q + r;
    assert b / 2 == p * q + r / 2 by {
      assert b == 2 * (p * q) + r;
    }
    assert r / 2 < p;
    QuotientUnique(b / 2, p, q, r / 2);
  }

  lemma QuotientUnique(a: nat, d: nat, q: nat, r: nat)
    requires d > 0 && a == d * q + r && r < d
    ensures a / d == q && a % d == r
  {
    var k := a / d - q;
    assert d * k == r - a % d;
    assert k > 0 ==> d * k >= d;
    assert k < 0 ==> d * k <= 0 - d;
  }
}
