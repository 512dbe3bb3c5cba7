/** The indexer object (KVIndexer in indexer/kv_indexer.go): its methods change or read
    one database and are proved against the functions on logs of saves. */
module KvStore {
  import opened Bits
  import opened Options
  import opened KvKeys
  import opened TxResultCodec
  import opened KvIndexer
  import opened KvScan

  lemma {:induction false} NextIndex(eth: nat)
    ensures ToInt32(ToInt32(eth) + 1) == ToInt32(eth + 1)
  {
  }

  class KVIndexer {
    var db: Db

    constructor ()
      ensures db == map[]
    {
      db := map[];
    }

    /** Collects the saves of the block in a batch and writes it; `writeOk` says whether
        the database accepts the batch. */
    method IndexBlock(b: Block, writeOk: bool) returns (ok: bool)
      modifies this
      ensures ok == writeOk
      ensures db == if ok then PutAll(old(db), Saves(b)) else old(db)
    {
      hide PutAll, ToInt32, MsgSaves;
      var batch: seq<Save> := [];
      var ethTxIndex: int32 := 0;
      ghost var eth: nat := 0;
      for t := 0 to |b.txs|
        invariant ethTxIndex == ToInt32(eth) && db == old(db)
        invariant batch + SavesFrom(b, t, eth) == Saves(b)
      {
        var tx := b.txs[t];
        if !tx.expected { continue; }
        if !tx.decodes { continue; }
        if !tx.isEth { continue; }
        if !tx.parses { continue; }
        var saves;
        saves, ethTxIndex := IndexMessages(b.height, t, tx, ethTxIndex, eth);
        ConcatAssoc(batch, saves, SavesFrom(b, t + 1, eth + |saves|));
        batch := batch + saves;
        eth := eth + |saves|;
      }
      assert batch == batch + [] == Saves(b);
      ok := writeOk;
      if ok { db := PutAll(db, batch); }
    }

    /** The inner loop, over the messages of one Ethereum transaction. */
    static method IndexMessages(height: int64, t: nat, tx: Tx, ethTxIndex: int32, ghost eth: nat)
      returns (batch: seq<Save>, next: int32)
      requires ethTxIndex == ToInt32(eth)
      ensures batch == MsgSaves(height, t, tx, 0, 0, eth)
      ensures next == ToInt32(eth + |batch|)
    {
      hide ToInt32, ToUint64, ToUint32;
      batch, next := [], ethTxIndex;
      var cumulativeGasUsed: uint64 := 0;
      for j := 0 to |tx.msgs|
        invariant next == ToInt32(eth + |batch|)
        invariant batch + MsgSaves(height, t, tx, j, cumulativeGasUsed, eth + |batch|)
                  == MsgSaves(height, t, tx, 0, 0, eth)
      {
        var msg := tx.msgs[j];
        var gasUsed, failed;
        if !tx.codeOk {
          gasUsed, failed := msg.gas, true;
        } else {
          if msg.parsed == None { continue; }
          gasUsed, failed := msg.parsed.value.gasUsed, msg.parsed.value.failed;
        }
        cumulativeGasUsed := ToUint64(cumulativeGasUsed + gasUsed);
        var rec := TxResult(height, ToUint32(t), ToUint32(j), next, failed, gasUsed, cumulativeGasUsed);
        NextIndex(eth + |batch|);
        next := ToInt32(next + 1);
        ConcatAssoc(batch, [Save(msg.hash, rec)], MsgSaves(height, t, tx, j + 1, cumulativeGasUsed, eth + |batch| + 1));
        batch := batch + [Save(msg.hash, rec)];
      }
      assert batch + [] == batch;
    }

    method LastIndexedBlock() returns (r: Option<int64>)
      ensures r == LastBlock(db)
    {
      hide Scanned, ParseBlockNumber;
      assert (exists k :: k in db && Greatest(db, k)) <==> exists k :: Greatest(db, k);
      if exists k :: k in db && Greatest(db, k) {
        var k :| k in db && Greatest(db, k);
        forall k' ensures Greatest(db, k') ==> k' == k { EndsUnique(db, k, k'); }
        r := ParseBlockNumber(k);
      } else {
        r := Some(-1);
      }
    }

    method FirstIndexedBlock() returns (r: Option<int64>)
      ensures r == FirstBlock(db)
    {
      hide Scanned, ParseBlockNumber;
      assert (exists k :: k in db && Least(db, k)) <==> exists k :: Least(db, k);
      if exists k :: k in db && Least(db, k) {
        var k :| k in db && Least(db, k);
        forall k' ensures Least(db, k') ==> k' == k { EndsUnique(db, k, k'); }
        r := ParseBlockNumber(k);
      } else {
        r := Some(-1);
      }
    }
  }
}
