/** Machine-integer vocabulary shared by the codecs: bytes, fixed-width
    patterns, two's-complement views and bitwise `or` on natural numbers. */
module Bits {

  type byte = b: int | 0 <= b < 256

  const TWO_7: int := 0x80
  const TWO_31: int := 0x8000_0000
  const TWO_32: int := 0x1_0000_0000
  const TWO_63: int := 0x8000_0000_0000_0000
  const TWO_64: int := 0x1_0000_0000_0000_0000

  type int32 = x: int | -TWO_31 <= x < TWO_31
  type uint32 = x: int | 0 <= x < TWO_32
  type int64 = x: int | -TWO_63 <= x < TWO_63
  type uint64 = x: int | 0 <= x < TWO_64

  /** Conversion to an unsigned 64-bit pattern; negative numbers are sign-extended. */
  function ToUint64(x: int): (r: uint64)
    ensures 0 <= x < TWO_64 ==> r == x
    ensures -TWO_63 <= x < 0 ==> r == x + TWO_64
  {
    x % TWO_64
  }

  function ToUint32(x: int): uint32 {
    x % TWO_32
  }

  /** The two's-complement reading of the low 64 bits of `x`. */
  function ToInt64(x: int): (r: int64)
    ensures r % TWO_64 == x % TWO_64
    ensures -TWO_63 <= x < TWO_63 ==> r == x
  {
    var y := x % TWO_64;
    if y < TWO_63 then y else y - TWO_64
  }

  /** The two's-complement reading of the low 32 bits of `x`. */
  function ToInt32(x: int): (r: int32)
    ensures r % TWO_32 == x % TWO_32
    ensures -TWO_31 <= x < TWO_31 ==> r == x
  {
    var y := x % TWO_32;
    if y < TWO_31 then y else y - TWO_32
  }

  /** `y` shifted left by `s` bits, unbounded. */
  function Shl(y: nat, s: nat): nat {
    if s == 0 then y else 2 * Shl(y, s - 1)
  }

  /** The low `w` bits of `x`. */
  function Trunc(x: nat, w: nat): nat {
    if w == 0 then 0 else x % 2 + 2 * Trunc(x / 2, w - 1)
  }

  /** Bitwise `or` of two natural numbers, bit by bit. */
  function BitOr(x: nat, y: nat): nat
    decreases x + y
  {
    if x == 0 then y
    else if y == 0 then x
    else (if x % 2 == 1 || y % 2 == 1 then 1 else 0) + 2 * BitOr(x / 2, y / 2)
  }

  /** Number of bits of `x`, as math/bits.Len64 counts them. */
  function BitLen(x: nat): nat {
    if x == 0 then 0 else 1 + BitLen(x / 2)
  }

  lemma {:induction false} ShlPositive(y: nat, s: nat)
    requires y > 0
    ensures Shl(y, s) > 0
  {
    if s > 0 { ShlPositive(y, s - 1); }
  }

  lemma {:induction false} ShlShl(y: nat, s: nat, t: nat)
    ensures Shl(Shl(y, s), t) == Shl(y, s + t)
  {
    if t > 0 { ShlShl(y, s, t - 1); }
  }

  lemma {:induction false} ShlAdd(a: nat, b: nat, s: nat)
    ensures Shl(a + b, s) == Shl(a, s) + Shl(b, s)
  {
    if s > 0 { ShlAdd(a, b, s - 1); }
  }

  /** A low part below 2^s under a high part below 2^n stays below 2^(n+s). */
  lemma {:induction false} ShlBound(x: nat, y: nat, n: nat, s: nat)
    requires x < Shl(1, s) && y < Shl(1, n)
    ensures x + Shl(y, s) < Shl(1, n + s)
  {
    if s == 0 {
    } else {
      ShlBound(x / 2, y, n, s - 1);
    }
  }

  lemma {:induction false} ModUnique(x: int, q: int, m: int, r: int)
    requires m > 0 && 0 <= r < m && x == q * m + r
    ensures x % m == r
  {
    var e := q - x / m;
    assert e * m == x % m - r;
    MulBound(e, m);
  }

  lemma {:induction false} MulBound(e: int, m: int)
    requires m > 0
    ensures e >= 1 ==> e * m >= m
    ensures e <= -1 ==> e * m <= -m
  {
  }

  lemma {:induction false} HalfMod(x: nat, m: nat)
    requires m > 0
    ensures x % (2 * m) == x % 2 + 2 * ((x / 2) % m)
  {
    var q, r := x / 2 / m, (x / 2) % m;
    assert x / 2 == q * m + r;
    assert q * (2 * m) == 2 * (q * m);
    ModUnique(x, q, 2 * m, x % 2 + 2 * r);
  }

  /** Keeping the low `w` bits is taking the remainder by 2^w. */
  lemma {:induction false} TruncIsMod(x: nat, w: nat)
    ensures Shl(1, w) > 0 && Trunc(x, w) == x % Shl(1, w)
  {
    ShlPositive(1, w);
    if w > 0 {
      TruncIsMod(x / 2, w - 1);
      HalfMod(x, Shl(1, w - 1));
    }
  }

  lemma {:induction false} TruncWords(x: nat)
    ensures Trunc(x, 32) == x % TWO_32
    ensures Trunc(x, 64) == x % TWO_64
  {
    WordSizes();
    TruncIsMod(x, 32);
    TruncIsMod(x, 64);
  }

  /** Or-ing a group shifted by `s` into a `w`-bit accumulator that holds a number
      below 2^s is addition truncated to `w` bits, also when the group is shifted
      partly or wholly out of the word. */
  lemma {:induction false} OrStep(acc: nat, y: nat, s: nat, w: nat)
    requires acc < Shl(1, s)
    ensures BitOr(Trunc(acc, w), Trunc(Shl(y, s), w)) == Trunc(acc + Shl(y, s), w)
    decreases w
  {
    if w == 0 {
    } else if s == 0 {
      TruncZero(w);
    } else {
      var h := Shl(y, s - 1);
      OrStep(acc / 2, y, s - 1, w - 1);
      assert Shl(y, s) / 2 == h && (acc + 2 * h) / 2 == acc / 2 + h && (acc + 2 * h) % 2 == acc % 2;
      OrBits(acc % 2, Trunc(acc / 2, w - 1), Trunc(h, w - 1));
    }
  }

  lemma {:induction false} OrBits(b: nat, x: nat, y: nat)
    requires b < 2
    ensures BitOr(b + 2 * x, 2 * y) == b + 2 * BitOr(x, y)
  {
    assert (b + 2 * x) / 2 == x && (2 * y) / 2 == y;
  }

  lemma {:induction false} TruncZero(w: nat)
    ensures Trunc(0, w) == 0
  {
    if w > 0 { TruncZero(w - 1); }
  }

  lemma {:induction false} WordSizes()
    ensures Shl(1, 7) == TWO_7
    ensures Shl(1, 32) == TWO_32
    ensures Shl(1, 64) == TWO_64
    ensures Shl(1, 70) == 64 * TWO_64
  {
    Shl8(1, 0);
    Shl8(1, 8);
    Shl8(1, 16);
    Shl8(1, 24);
    Shl8(1, 32);
    Shl8(1, 40);
    Shl8(1, 48);
    Shl8(1, 56);
    Shl8(1, 64);
    assert Shl(1, 72) == 4 * Shl(1, 70) && Shl(1, 8) == 2 * Shl(1, 7);
  }

  lemma {:induction false} Shl8(y: nat, s: nat)
    ensures Shl(y, s + 8) == 256 * Shl(y, s)
    ensures Shl(y, s + 7) == TWO_7 * Shl(y, s)
  {
    assert Shl(y, s + 8) == 2 * Shl(y, s + 7) == 4 * Shl(y, s + 6) == 8 * Shl(y, s + 5) == 16 * Shl(y, s + 4);
    assert Shl(y, s + 4) == 2 * Shl(y, s + 3) == 4 * Shl(y, s + 2) == 8 * Shl(y, s + 1) == 16 * Shl(y, s);
  }

  /** Seven doublings at a time: shifting right by seven drops seven bits. */
  lemma {:induction false} BitLenShift7(x: nat)
    requires x >= 0x80
    ensures BitLen(x) == 7 + BitLen(x / 0x80)
  {
    assert BitLen(x) == 1 + BitLen(x / 2);
    assert BitLen(x / 2) == 1 + BitLen(x / 2 / 2);
    assert BitLen(x / 4) == 1 + BitLen(x / 4 / 2);
    assert BitLen(x / 8) == 1 + BitLen(x / 8 / 2);
    assert BitLen(x / 16) == 1 + BitLen(x / 16 / 2);
    assert BitLen(x / 32) == 1 + BitLen(x / 32 / 2);
    assert BitLen(x / 64) == 1 + BitLen(x / 64 / 2);
    assert x / 2 / 2 == x / 4 && x / 4 / 2 == x / 8 && x / 8 / 2 == x / 16;
    assert x / 16 / 2 == x / 32 && x / 32 / 2 == x / 64 && x / 64 / 2 == x / 128;
  }

  lemma {:induction false} ConcatAssoc<T>(a: seq<T>, b: seq<T>, c: seq<T>)
    ensures (a + b) + c == a + (b + c)
  {
  }

  lemma {:induction false} SliceJoin<T>(d: seq<T>, i: nat, n: nat, m: nat)
    requires i <= n <= m <= |d|
    ensures d[i..n] + d[n..m] == d[i..m]
  {
  }

  /** `s` occurs in `d` at index `i`. */
  predicate At<T(==)>(d: seq<T>, i: nat, s: seq<T>) {
    i + |s| <= |d| && forall j :: 0 <= j < |s| ==> d[i + j] == s[j]
  }

  lemma {:induction false} AtSplit<T>(d: seq<T>, i: nat, a: seq<T>, b: seq<T>)
    ensures At(d, i, a + b) <==> At(d, i, a) && At(d, i + |a|, b)
  {
    if At(d, i, a + b) {
      forall j | 0 <= j < |a| ensures d[i + j] == a[j] { assert (a + b)[j] == a[j]; }
      forall j | 0 <= j < |b| ensures d[i + |a| + j] == b[j] {
        assert (a + b)[|a| + j] == b[j];
        assert d[i + (|a| + j)] == b[j];
      }
    }
    if At(d, i, a) && At(d, i + |a|, b) {
      forall j | 0 <= j < |a + b| ensures d[i + j] == (a + b)[j] {
        if j >= |a| { assert d[i + |a| + (j - |a|)] == b[j - |a|]; }
      }
    }
  }

  lemma {:induction false} AtThree<T>(d: seq<T>, i: nat, a: seq<T>, b: seq<T>, c: seq<T>)
    ensures At(d, i, a + b + c) <==> At(d, i, a) && At(d, i + |a|, b) && At(d, i + |a| + |b|, c)
  {
    AtSplit(d, i, a + b, c);
    AtSplit(d, i, a, b);
  }

  lemma {:induction false} AtPrefix<T>(d: seq<T>, i: nat, a: seq<T>, b: seq<T>)
    requires i <= |d| && d[i..] == a + b
    ensures At(d, i, a) && d[i + |a|..] == b
  {
    assert |d| == i + |a| + |b|;
    forall j | 0 <= j < |a| ensures d[i + j] == a[j] { assert d[i..][j] == (a + b)[j]; }
    assert d[i + |a|..] == d[i..][|a|..];
  }

  lemma {:induction false} AtSlice<T>(d: seq<T>, i: nat, n: nat)
    requires i <= n <= |d|
    ensures At(d, i, d[i..n])
  {
  }

  lemma {:induction false} AtUnique<T>(d: seq<T>, i: nat, a: seq<T>)
    requires At(d, i, a)
    ensures d[i..i + |a|] == a
  {
  }
}
