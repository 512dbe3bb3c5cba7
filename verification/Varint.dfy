/** Base-128 varints as the generated protobuf code writes and reads them
    (types/indexer.pb.go and types/web3.pb.go carry identical copies). */
module Varint {
  import opened Bits
  import opened Options

  /** The minimal encoding of `v`: seven bits a byte, low group first. */
  function Encode(v: nat): (s: seq<byte>)
    ensures |s| >= 1
  {
    if v < TWO_7 then [v] else [v % TWO_7 + TWO_7] + Encode(v / TWO_7)
  }

  /** Number of bytes the generated code reserves for `x`. */
  function Sov(x: nat): nat {
    (BitLen(BitOr(x, 1)) + 6) / 7
  }

  /** What the read loop makes of `d` at `i` after `k` bytes worth `acc`: the whole
      value, before truncation to a field's width, and the index behind it.
      The loop fails on an eleventh byte and on the end of the input. */
  function ReadFrom(d: seq<byte>, i: nat, k: nat, acc: nat): (r: Option<(nat, nat)>)
    ensures r.Some? ==> i < r.value.1 <= |d|
    decreases |d| - i
  {
    if k >= 10 || i >= |d| then None
    else if d[i] < TWO_7 then Some((acc + Shl(d[i], 7 * k), i + 1))
    else ReadFrom(d, i + 1, k + 1, acc + Shl(d[i] - TWO_7, 7 * k))
  }

  function Read(d: seq<byte>, i: nat): (r: Option<(nat, nat)>)
    ensures r.Some? ==> i < r.value.1 <= |d|
  {
    ReadFrom(d, i, 0, 0)
  }

  /** A varint in any accepted spelling: at most ten bytes, all but the last
      with the continuation bit set. Overlong spellings are included. */
  predicate IsVarint(s: seq<byte>) {
    && 1 <= |s| <= 10
    && s[|s| - 1] < TWO_7
    && forall i :: 0 <= i < |s| - 1 ==> s[i] >= TWO_7
  }

  /** The number a varint spells. */
  function Value(s: seq<byte>): nat {
    if |s| == 0 then 0 else s[0] % TWO_7 + TWO_7 * Value(s[1..])
  }

  // ------------------------------------------------------- reader against spelling

  lemma {:induction false} ReadFromSpelled(d: seq<byte>, i: nat, s: seq<byte>, k: nat, acc: nat)
    requires At(d, i, s) && |s| >= 1 && k + |s| <= 10
    requires s[|s| - 1] < TWO_7
    requires forall j :: 0 <= j < |s| - 1 ==> s[j] >= TWO_7
    ensures ReadFrom(d, i, k, acc) == Some((acc + Shl(Value(s), 7 * k), i + |s|))
    decreases |s|
  {
    assert d[i + 0] == s[0];
    if |s| == 1 {
      assert Value(s) == s[0] by { assert Value(s[1..]) == 0; }
    } else {
      var low, t := s[0] - TWO_7, s[1..];
      assert At(d, i + 1, t) by {
        forall j | 0 <= j < |t| ensures d[i + 1 + j] == t[j] { assert d[i + (1 + j)] == s[1 + j]; }
      }
      ReadFromSpelled(d, i + 1, t, k + 1, acc + Shl(low, 7 * k));
      var v := Value(t);
      ShlAdd(low, TWO_7 * v, 7 * k);
      Shl8(v, 0);
      ShlShl(v, 7, 7 * k);
    }
  }

  /** The reader returns wherever a varint is spelled exactly its value and the
      index behind it. */
  lemma {:induction false} ReadSpelled(d: seq<byte>, i: nat, s: seq<byte>)
    requires IsVarint(s) && At(d, i, s)
    ensures Read(d, i) == Some((Value(s), i + |s|))
  {
    ReadFromSpelled(d, i, s, 0, 0);
  }

  lemma {:induction false} ReadFromSound(d: seq<byte>, i: nat, k: nat, acc: nat)
    requires ReadFrom(d, i, k, acc).Some?
    ensures var n := ReadFrom(d, i, k, acc).value.1;
            && k + n - i <= 10
            && d[n - 1] < TWO_7
            && forall j :: i <= j < n - 1 ==> d[j] >= TWO_7
    decreases |d| - i
  {
    if d[i] >= TWO_7 {
      ReadFromSound(d, i + 1, k + 1, acc + Shl(d[i] - TWO_7, 7 * k));
    }
  }

  /** Whatever the reader accepts is a spelled varint. */
  lemma {:induction false} ReadSound(d: seq<byte>, i: nat)
    requires Read(d, i).Some?
    ensures var n := Read(d, i).value.1;
            IsVarint(d[i..n]) && Read(d, i).value.0 == Value(d[i..n])
  {
    ReadFromSound(d, i, 0, 0);
    var n := Read(d, i).value.1;
    ReadSpelled(d, i, d[i..n]);
  }

  // ------------------------------------------------------ encoder against spelling

  lemma {:induction false} EncodeSpells(v: nat, g: nat)
    requires g >= 1 && v < Shl(1, 7 * g)
    ensures var s := Encode(v);
            && 1 <= |s| <= g
            && Value(s) == v
            && s[|s| - 1] < TWO_7
            && forall i :: 0 <= i < |s| - 1 ==> s[i] >= TWO_7
    decreases g
  {
    var s := Encode(v);
    if v < TWO_7 {
      assert Value(s) == v by { assert s[1..] == []; }
    } else {
      WordSizes();
      assert g > 1;
      Shl8(1, 7 * (g - 1));
      EncodeSpells(v / TWO_7, g - 1);
      assert s[1..] == Encode(v / TWO_7);
      forall i | 0 <= i < |s| - 1 ensures s[i] >= TWO_7 {
        if i > 0 { assert s[i] == s[1..][i - 1]; }
      }
      assert s[|s| - 1] == s[1..][|s| - 2];
    }
  }

  /** Every 64-bit number is spelled in at most ten bytes, and reads back from them. */
  lemma {:induction false} EncodeIsVarint(v: uint64)
    ensures IsVarint(Encode(v)) && Value(Encode(v)) == v
  {
    WordSizes();
    EncodeSpells(v, 10);
  }

  /** The bit-counting size formula gives the length of the encoding. */
  lemma {:induction false} SovIsLength(v: nat)
    ensures Sov(v) == |Encode(v)|
  {
    OrOne(v);
    if v < TWO_7 {
      BitLenSmall(BitOr(v, 1));
    } else {
      SovIsLength(v / TWO_7);
      OrOne(v / TWO_7);
      BitLenShift7(BitOr(v, 1));
      BitLenOdd(v / TWO_7);
    }
  }

  lemma {:induction false} OrOne(v: nat)
    ensures BitOr(v, 1) == if v % 2 == 0 then v + 1 else v
  {
    if v > 0 { assert BitOr(v / 2, 1 / 2) == v / 2; }
  }

  lemma {:induction false} BitLenSmall(x: nat)
    requires 1 <= x < TWO_7
    ensures 1 <= BitLen(x) <= 7
  {
    assert BitLen(x) == 1 + BitLen(x / 2);
    if x >= 2 { assert BitLen(x / 2) == 1 + BitLen(x / 2 / 2); }
    if x >= 4 { assert BitLen(x / 4) == 1 + BitLen(x / 4 / 2); }
    if x >= 8 { assert BitLen(x / 8) == 1 + BitLen(x / 8 / 2); }
    if x >= 16 { assert BitLen(x / 16) == 1 + BitLen(x / 16 / 2); }
    if x >= 32 { assert BitLen(x / 32) == 1 + BitLen(x / 32 / 2); }
  }

  lemma {:induction false} BitLenOdd(x: nat)
    requires x > 0
    ensures BitLen(x) == BitLen(if x % 2 == 0 then x + 1 else x)
  {
    assert (x + 1) / 2 == x / 2 || x % 2 == 1;
  }

  // ------------------------------------------------------------------- methods

  /** One turn of the read loop on its accumulator, its bound and its meaning. */
  lemma {:induction false} Turn(d: seq<byte>, i: nat, k: nat, acc: nat, w: nat)
    requires i < |d| && k < 10 && acc < Shl(1, 7 * k)
    ensures var x := Shl(d[i] % TWO_7, 7 * k);
            && BitOr(Trunc(acc, w), Trunc(x, w)) == Trunc(acc + x, w)
            && acc + x < Shl(1, 7 * (k + 1))
            && ReadFrom(d, i, k, acc)
               == if d[i] < TWO_7 then Some((acc + x, i + 1)) else ReadFrom(d, i + 1, k + 1, acc + x)
  {
    OrStep(acc, d[i] % TWO_7, 7 * k, w);
    WordSizes();
    ShlBound(acc, d[i] % TWO_7, 7, 7 * k);
  }

  /** The inlined read loop of the generated decoders, for a `width`-bit target:
      `v |= T(b&0x7F) << shift`. */
  method ReadVarint(d: seq<byte>, start: nat, width: nat)
    returns (ok: bool, v: nat, next: nat)
    requires start <= |d|
    ensures ok <==> Read(d, start).Some?
    ensures ok ==> v == Trunc(Read(d, start).value.0, width)
    ensures ok ==> next == Read(d, start).value.1
  {
    v, next := 0, start;
    var shift := 0;
    ghost var acc: nat := 0;
    ghost var k: nat := 0;
    TruncZero(width);
    while true
      invariant start <= next <= |d| && k == next - start <= 10 && shift == 7 * k
      invariant acc < Shl(1, shift) && v == Trunc(acc, width)
      invariant Read(d, start) == ReadFrom(d, next, k, acc)
      decreases |d| - next
    {
      if shift >= 64 {
        return false, 0, next;
      }
      if next >= |d| {
        return false, 0, next;
      }
      var b := d[next];
      next := next + 1;
      Turn(d, next - 1, k, acc, width);
      var x := Shl(b % TWO_7, shift);
      v := BitOr(v, Trunc(x, width));
      acc := acc + x;
      k := k + 1;
      if b < TWO_7 {
        return true, v, next;
      }
      shift := shift + 7;
    }
  }

  /** The read loop with a 64-bit target. */
  method ReadUint64(d: seq<byte>, start: nat) returns (ok: bool, v: uint64, next: nat)
    requires start <= |d|
    ensures ok <==> Read(d, start).Some?
    ensures ok ==> v == Read(d, start).value.0 % TWO_64
    ensures ok ==> next == Read(d, start).value.1
  {
    var w: nat;
    ok, w, next := ReadVarint(d, start, 64);
    v := 0;
    if ok {
      TruncWords(Read(d, start).value.0);
      v := w;
    }
  }

  /** The read loop with a 32-bit target. */
  method ReadUint32(d: seq<byte>, start: nat) returns (ok: bool, v: uint32, next: nat)
    requires start <= |d|
    ensures ok <==> Read(d, start).Some?
    ensures ok ==> v == Read(d, start).value.0 % TWO_32
    ensures ok ==> next == Read(d, start).value.1
  {
    var w: nat;
    ok, w, next := ReadVarint(d, start, 32);
    v := 0;
    if ok {
      TruncWords(Read(d, start).value.0);
      v := w;
    }
  }

  /** encodeVarintIndexer: writes the encoding of `v` so that it ends just before
      `offset`, going forward from its first byte, and returns where it starts. */
  method EncodeVarint(dAtA: array<byte>, offset: nat, v: uint64) returns (base: nat)
    requires |Encode(v)| <= offset <= dAtA.Length
    modifies dAtA
    ensures base == offset - |Encode(v)|
    ensures dAtA[base..] == Encode(v) + old(dAtA[offset..])
    ensures forall k :: 0 <= k < base ==> dAtA[k] == old(dAtA[k])
  {
    SovIsLength(v);
    base := offset - Sov(v);
    var o, w := base, v;
    while w >= TWO_7
      invariant base <= o < offset && 0 <= w < TWO_64
      invariant o + |Encode(w)| == offset
      invariant dAtA[base..o] + Encode(w) == Encode(v)
      invariant dAtA[offset..] == old(dAtA[offset..])
      invariant forall k :: 0 <= k < base ==> dAtA[k] == old(dAtA[k])
      decreases w
    {
      ghost var before := dAtA[base..o];
      dAtA[o] := w % TWO_7 + TWO_7;
      assert dAtA[base..o + 1] == before + [w % TWO_7 + TWO_7];
      ConcatAssoc(before, [w % TWO_7 + TWO_7], Encode(w / TWO_7));
      w := w / TWO_7;
      o := o + 1;
    }
    ghost var before := dAtA[base..o];
    dAtA[o] := w;
    assert dAtA[base..] == before + [w] + dAtA[offset..];
  }
}
