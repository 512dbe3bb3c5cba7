/** The first and the last indexed block: the two ends of a scan over the index keys
    (LoadFirstBlock and LoadLastBlock in indexer/kv_indexer.go). */
module KvScan {
  import opened Bits
  import opened Options
  import opened Order
  import opened Endian
  import opened KvKeys
  import opened TxResultCodec
  import opened KvIndexer

  predicate Greatest(db: Db, k: Bytes) {
    k in db && Scanned(k) && forall k' :: k' in db && Scanned(k') ==> k' == k || Below(k', k)
  }

  predicate Least(db: Db, k: Bytes) {
    k in db && Scanned(k) && forall k' :: k' in db && Scanned(k') ==> k' == k || Below(k, k')
  }

  predicate HasScanned(db: Db) {
    exists k :: k in db && Scanned(k)
  }

  lemma {:induction false} ScannedKeys(log: seq<Save>, k: Bytes)
    ensures k in PutAll(map[], log) && Scanned(k) <==>
              exists i :: 0 <= i < |log| && k == TxIndexKey(log[i].rec.height, log[i].rec.ethTxIndex)
  {
    hide TxHashKey, TxIndexKey, Scanned, Encode;
    if log != [] {
      var n := |log| - 1;
      var s := log[n];
      ScannedFamilies([], s.hash, s.rec.height, s.rec.ethTxIndex);
      ScannedKeys(log[..n], k);
      assert forall i :: 0 <= i < n ==> log[..n][i] == log[i];
    }
  }

  /** Saves at heights and indices that are not negative, as blocks produce them. */
  predicate Ordinary(log: seq<Save>) {
    forall i :: 0 <= i < |log| ==> log[i].rec.height >= 0 && log[i].rec.ethTxIndex >= 0
  }

  /** The greatest scanned key carries the greatest height ever saved. */
  lemma {:induction false} GreatestHeight(log: seq<Save>, k: Bytes)
    requires Ordinary(log) && Greatest(PutAll(map[], log), k)
    ensures ParseBlockNumber(k).Some?
    ensures var h := ParseBlockNumber(k).value;
            && (exists i :: 0 <= i < |log| && log[i].rec.height == h)
            && (forall i :: 0 <= i < |log| ==> log[i].rec.height <= h)
  {
    hide TxIndexKey, Scanned, PutAll, ParseBlockNumber;
    ScannedKeys(log, k);
    var j :| 0 <= j < |log| && k == TxIndexKey(log[j].rec.height, log[j].rec.ethTxIndex);
    var r := log[j].rec;
    ParseIndexKey(r.height, r.ethTxIndex);
    forall i | 0 <= i < |log| ensures log[i].rec.height <= r.height {
      var q := log[i].rec;
      var k' := TxIndexKey(q.height, q.ethTxIndex);
      ScannedKeys(log, k');
      TxIndexKeyOrder(q.height, q.ethTxIndex, r.height, r.ethTxIndex);
      if k' == k { TxIndexKeyInjective(q.height, q.ethTxIndex, r.height, r.ethTxIndex); }
    }
  }

  lemma {:induction false} LeastHeight(log: seq<Save>, k: Bytes)
    requires Ordinary(log) && Least(PutAll(map[], log), k)
    ensures ParseBlockNumber(k).Some?
    ensures var h := ParseBlockNumber(k).value;
            && (exists i :: 0 <= i < |log| && log[i].rec.height == h)
            && (forall i :: 0 <= i < |log| ==> log[i].rec.height >= h)
  {
    hide TxIndexKey, Scanned, PutAll, ParseBlockNumber;
    ScannedKeys(log, k);
    var j :| 0 <= j < |log| && k == TxIndexKey(log[j].rec.height, log[j].rec.ethTxIndex);
    var r := log[j].rec;
    ParseIndexKey(r.height, r.ethTxIndex);
    forall i | 0 <= i < |log| ensures log[i].rec.height >= r.height {
      var q := log[i].rec;
      var k' := TxIndexKey(q.height, q.ethTxIndex);
      ScannedKeys(log, k');
      TxIndexKeyOrder(r.height, r.ethTxIndex, q.height, q.ethTxIndex);
      if k' == k { TxIndexKeyInjective(q.height, q.ethTxIndex, r.height, r.ethTxIndex); }
    }
  }

  // -------------------------------------------------------------- the scan's ends

  lemma {:induction false} GreatestExists(db: Db, keys: set<Bytes>) returns (k: Bytes)
    requires keys <= db.Keys && keys != {} && forall x :: x in keys ==> Scanned(x)
    ensures k in keys && forall x :: x in keys ==> x == k || Below(x, k)
  {
    hide Scanned, Below;
    var y :| y in keys;
    var rest := keys - {y};
    assert forall x :: x in keys ==> x == y || x in rest;
    if rest == {} {
      k := y;
    } else {
      var m := GreatestExists(db, rest);
      BelowTotal(y, m);
      k := if Below(m, y) then y else m;
      forall x | x in keys ensures x == k || Below(x, k) {
        if x in rest && x != m && k == y { BelowTransitive(x, m, y); }
      }
    }
  }

  lemma {:induction false} LeastExists(db: Db, keys: set<Bytes>) returns (k: Bytes)
    requires keys <= db.Keys && keys != {} && forall x :: x in keys ==> Scanned(x)
    ensures k in keys && forall x :: x in keys ==> x == k || Below(k, x)
  {
    hide Scanned, Below;
    var y :| y in keys;
    var rest := keys - {y};
    assert forall x :: x in keys ==> x == y || x in rest;
    if rest == {} {
      k := y;
    } else {
      var m := LeastExists(db, rest);
      BelowTotal(y, m);
      k := if Below(y, m) then y else m;
      forall x | x in keys ensures x == k || Below(k, x) {
        if x in rest && x != m && k == y { BelowTransitive(y, m, x); }
      }
    }
  }

  /** Both ends of the scan exist as soon as it visits a key. */
  lemma {:induction false} EndsExist(db: Db)
    requires HasScanned(db)
    ensures (exists k :: Greatest(db, k)) && (exists k :: Least(db, k))
  {
    hide Scanned, Below;
    var keys := set k | k in db && Scanned(k);
    var k :| k in db && Scanned(k);
    assert k in keys;
    var g := GreatestExists(db, keys);
    var l := LeastExists(db, keys);
    assert Greatest(db, g) && Least(db, l);
  }

  lemma {:induction false} EndsUnique(db: Db, k: Bytes, k': Bytes)
    ensures Greatest(db, k) && Greatest(db, k') ==> k == k'
    ensures Least(db, k) && Least(db, k') ==> k == k'
  {
    hide Scanned, Below;
    if Below(k, k') && Below(k', k) {
      BelowTransitive(k, k', k);
      BelowIrreflexive(k);
    }
  }

  /** LoadLastBlock: -1 on an empty index. */
  ghost function LastBlock(db: Db): Option<int64> {
    if exists k :: Greatest(db, k) then var k :| Greatest(db, k); ParseBlockNumber(k) else Some(-1)
  }

  /** LoadFirstBlock: -1 on an empty index. */
  ghost function FirstBlock(db: Db): Option<int64> {
    if exists k :: Least(db, k) then var k :| Least(db, k); ParseBlockNumber(k) else Some(-1)
  }

  lemma {:induction false} EmptyScan(log: seq<Save>)
    ensures HasScanned(PutAll(map[], log)) <==> log != []
  {
    hide Scanned, TxIndexKey, PutAll;
    if log != [] {
      ScannedKeys(log, TxIndexKey(log[0].rec.height, log[0].rec.ethTxIndex));
    } else {
      forall k ensures !(k in PutAll(map[], log) && Scanned(k)) { ScannedKeys(log, k); }
    }
  }

  /** LastIndexedBlock is -1 when nothing was saved, and otherwise the greatest height
      saved. */
  lemma {:induction false} LastBlockSpec(log: seq<Save>)
    requires Ordinary(log)
    ensures log == [] ==> LastBlock(PutAll(map[], log)) == Some(-1)
    ensures log != [] ==>
              var last := LastBlock(PutAll(map[], log));
              && last.Some?
              && (exists i :: 0 <= i < |log| && log[i].rec.height == last.value)
              && (forall i :: 0 <= i < |log| ==> log[i].rec.height <= last.value)
  {
    var db := PutAll(map[], log);
    EmptyScan(log);
    hide PutAll, Ordinary, ParseBlockNumber, Scanned, Below;
    if log != [] {
      EndsExist(db);
      var k :| Greatest(db, k) && LastBlock(db) == ParseBlockNumber(k);
      GreatestHeight(log, k);
    }
  }

  lemma {:induction false} FirstBlockSpec(log: seq<Save>)
    requires Ordinary(log)
    ensures log == [] ==> FirstBlock(PutAll(map[], log)) == Some(-1)
    ensures log != [] ==>
              var first := FirstBlock(PutAll(map[], log));
              && first.Some?
              && (exists i :: 0 <= i < |log| && log[i].rec.height == first.value)
              && (forall i :: 0 <= i < |log| ==> log[i].rec.height >= first.value)
  {
    var db := PutAll(map[], log);
    EmptyScan(log);
    hide PutAll, Ordinary, ParseBlockNumber, Scanned, Below;
    if log != [] {
      EndsExist(db);
      var k :| Least(db, k) && FirstBlock(db) == ParseBlockNumber(k);
      LeastHeight(log, k);
    }
  }
}
