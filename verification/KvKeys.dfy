/** Database keys of the EVM transaction indexer (indexer/kv_indexer.go): one family
    by transaction hash, one by block height and index, the latter sorted. */
module KvKeys {
  import opened Bits
  import opened Options
  import opened Order
  import opened Endian

  type Hash = h: Bytes | |h| == 32 witness seq(32, i => 0)

  const PREFIX_TX_HASH: byte := 1
  const PREFIX_TX_INDEX: byte := 2

  // ----------------------------------------------------------------------- keys

  function TxHashKey(hash: Hash): Bytes {
    [PREFIX_TX_HASH] + hash
  }

  function TxIndexKey(height: int64, txIndex: int32): (k: Bytes)
    ensures |k| == 17
  {
    [PREFIX_TX_INDEX] + BigEndian(ToUint64(height), 8) + BigEndian(ToUint64(txIndex), 8)
  }

  /** parseBlockNumberFromKey. */
  function ParseBlockNumber(key: Bytes): Option<int64> {
    if |key| != 17 then None else Some(ToInt64(FromBigEndian(key[1..9])))
  }

  /** The keys an iterator over [0x02, 0x03) visits. */
  predicate Scanned(k: Bytes) {
    !Below(k, [PREFIX_TX_INDEX]) && Below(k, [PREFIX_TX_INDEX + 1])
  }

  lemma {:induction false} BelowOne(k: seq<int>, b: int)
    ensures Below(k, [b]) <==> k == [] || k[0] < b
  {
    assert [b][1..] == [];
    if k != [] { assert !Below(k[1..], []); }
  }

  /** The scan visits exactly the keys that start with 0x02, so index keys and no hash
      keys. */
  lemma {:induction false} ScannedFamilies(k: Bytes, hash: Hash, height: int64, txIndex: int32)
    ensures Scanned(k) <==> k != [] && k[0] == 0x02
    ensures !Scanned(TxHashKey(hash))
    ensures Scanned(TxIndexKey(height, txIndex))
  {
    BelowOne(k, PREFIX_TX_INDEX);
    BelowOne(k, PREFIX_TX_INDEX + 1);
    assert TxHashKey(hash)[0] == PREFIX_TX_HASH;
    assert TxIndexKey(height, txIndex)[0] == PREFIX_TX_INDEX;
  }

  lemma {:induction false} KeyFamiliesDisjoint(hash: Hash, height: int64, txIndex: int32)
    ensures TxHashKey(hash) != TxIndexKey(height, txIndex)
  {
    assert TxHashKey(hash)[0] != TxIndexKey(height, txIndex)[0];
  }

  lemma {:induction false} TxHashKeyInjective(a: Hash, b: Hash)
    requires TxHashKey(a) == TxHashKey(b)
    ensures a == b
  {
    assert TxHashKey(a)[1..] == a && TxHashKey(b)[1..] == b;
  }

  lemma {:induction false} TxIndexKeyParts(height: int64, txIndex: int32)
    ensures var k := TxIndexKey(height, txIndex);
            k[1..9] == BigEndian(ToUint64(height), 8) && k[9..] == BigEndian(ToUint64(txIndex), 8)
  {
  }

  /** Hash keys are 0x01 and the hash; index keys 0x02 and the two numbers as 64-bit words,
      high byte first, negative ones in two's complement. */
  lemma {:induction false} KeyLayout(hash: Hash, height: int64, txIndex: int32)
    ensures TxHashKey(hash)[0] == 0x01 && TxHashKey(hash)[1..] == hash
    ensures var k := TxIndexKey(height, txIndex);
            && k[0] == 0x02
            && FromBigEndian(k[1..9]) == (if height < 0 then height + TWO_64 else height)
            && FromBigEndian(k[9..17]) == if txIndex < 0 then txIndex + TWO_64 else txIndex
  {
    Pow256Of8();
    TxIndexKeyParts(height, txIndex);
    BigEndianInverse(ToUint64(height), 8);
    BigEndianInverse(ToUint64(txIndex), 8);
    assert TxIndexKey(height, txIndex)[9..17] == TxIndexKey(height, txIndex)[9..];
  }

  /** The height is read back from the key, whatever its sign. */
  lemma {:induction false} ParseIndexKey(height: int64, txIndex: int32)
    ensures ParseBlockNumber(TxIndexKey(height, txIndex)) == Some(height)
  {
    Pow256Of8();
    TxIndexKeyParts(height, txIndex);
    BigEndianInverse(ToUint64(height), 8);
  }

  lemma {:induction false} TxIndexKeyInjective(h: int64, i: int32, h': int64, i': int32)
    requires TxIndexKey(h, i) == TxIndexKey(h', i')
    ensures h == h' && i == i'
  {
    hide BigEndian;
    ParseIndexKey(h, i);
    ParseIndexKey(h', i');
    Pow256Of8();
    TxIndexKeyParts(h, i);
    TxIndexKeyParts(h', i');
    BigEndianInverse(ToUint64(i), 8);
    BigEndianInverse(ToUint64(i'), 8);
  }

  /** Byte order on index keys is the order of the pairs, read as unsigned words. */
  lemma {:induction false} TxIndexKeyOrder(h: int64, i: int32, h': int64, i': int32)
    ensures Below(TxIndexKey(h, i), TxIndexKey(h', i')) <==>
              ToUint64(h) < ToUint64(h') || (h == h' && ToUint64(i) < ToUint64(i'))
  {
    hide Below, BigEndian;
    Pow256Of8();
    var a, b := BigEndian(ToUint64(h), 8), BigEndian(ToUint64(i), 8);
    var a', b' := BigEndian(ToUint64(h'), 8), BigEndian(ToUint64(i'), 8);
    BigEndianOrder(ToUint64(h), ToUint64(h'), 8);
    BigEndianOrder(ToUint64(i), ToUint64(i'), 8);
    BigEndianInverse(ToUint64(h), 8);
    BigEndianInverse(ToUint64(h'), 8);
    var p: Bytes := [PREFIX_TX_INDEX];
    BelowIrreflexive(p);
    ConcatAssoc(p, a, b);
    ConcatAssoc(p, a', b');
    BelowConcat(p, p, a + b, a' + b');
    BelowConcat(a, a', b, b');
  }
}
