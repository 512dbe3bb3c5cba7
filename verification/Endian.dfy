/** Big-endian numbers in a fixed number of bytes. */
module Endian {
  import opened Bits
  import opened Order

  type Bytes = seq<byte>

  function BigEndian(v: nat, n: nat): (s: Bytes)
    ensures |s| == n
  {
    if n == 0 then [] else BigEndian(v / 256, n - 1) + [v % 256]
  }

  function FromBigEndian(s: Bytes): nat {
    if s == [] then 0 else 256 * FromBigEndian(s[..|s| - 1]) + s[|s| - 1]
  }

  function Pow256(n: nat): (p: nat)
    ensures p > 0
  {
    if n == 0 then 1 else 256 * Pow256(n - 1)
  }

  lemma {:induction false} Pow256Of8()
    ensures Pow256(8) == TWO_64
  {
    assert Pow256(8) == 256 * Pow256(7) == 0x1_0000 * Pow256(6) == 0x100_0000 * Pow256(5) == 0x1_0000_0000 * Pow256(4);
    assert Pow256(4) == 256 * Pow256(3) == 0x1_0000 * Pow256(2) == 0x100_0000 * Pow256(1) == 0x1_0000_0000;
  }

  lemma {:induction false} BigEndianInverse(v: nat, n: nat)
    requires v < Pow256(n)
    ensures FromBigEndian(BigEndian(v, n)) == v
  {
    if n > 0 {
      BigEndianInverse(v / 256, n - 1);
      var s := BigEndian(v, n);
      assert s[..n - 1] == BigEndian(v / 256, n - 1);
    }
  }

  /** Byte order on equally long big-endian numbers is numeric order. */
  lemma {:induction false} BigEndianOrder(u: nat, v: nat, n: nat)
    requires u < Pow256(n) && v < Pow256(n)
    ensures Below(BigEndian(u, n), BigEndian(v, n)) <==> u < v
  {
    if n > 0 {
      var a, b := BigEndian(u / 256, n - 1), BigEndian(v / 256, n - 1);
      BigEndianOrder(u / 256, v / 256, n - 1);
      BelowConcat(a, b, [u % 256], [v % 256]);
      BigEndianInverse(u / 256, n - 1);
      BigEndianInverse(v / 256, n - 1);
      assert a == b <==> u / 256 == v / 256;
      assert Below([u % 256], [v % 256]) <==> u % 256 < v % 256;
    }
  }
}
