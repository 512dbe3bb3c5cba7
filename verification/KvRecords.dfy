/** Which message of a block each save records (IndexBlock in indexer/kv_indexer.go): the
    messages are numbered in block order, and every field of a record is given by the
    block and the message's place in it. */
module KvRecords {
  import opened Bits
  import opened Options
  import opened KvIndexer
  import opened TxResultCodec

  // -------------------------------------------------------- the record of a message

  /** The message gets an Ethereum index: its transaction succeeded or failed as expected,
      decodes, is an Ethereum one and has parseable events; and if it succeeded, there is
      an event for the message. */
  predicate Indexed(b: Block, t: nat, m: nat) {
    && t < |b.txs| && m < |b.txs[t].msgs|
    && var tx := b.txs[t];
       && tx.expected && tx.decodes && tx.isEth && tx.parses
       && (!tx.codeOk || tx.msgs[m].parsed.Some?)
  }

  /** How many messages before message `m` of transaction `t`, in block order, do. */
  function IndexedBefore(b: Block, t: nat, m: nat): nat
    requires t <= |b.txs| && m <= if t < |b.txs| then |b.txs[t].msgs| else 0
    decreases t, m
  {
    if m > 0 then IndexedBefore(b, t, m - 1) + if Indexed(b, t, m - 1) then 1 else 0
    else if t > 0 then IndexedBefore(b, t - 1, |b.txs[t - 1].msgs|)
    else 0
  }

  /** The gas of a message: what its event tells, or its limit when the transaction failed. */
  function MessageGas(b: Block, t: nat, m: nat): nat
    requires Indexed(b, t, m)
  {
    if b.txs[t].codeOk then b.txs[t].msgs[m].parsed.value.gasUsed else b.txs[t].msgs[m].gas
  }

  /** The gas of the transaction's indexed messages before message `m`. */
  function GasBefore(b: Block, t: nat, m: nat): nat
    requires t < |b.txs| && m <= |b.txs[t].msgs|
  {
    if m == 0 then 0 else GasBefore(b, t, m - 1) + if Indexed(b, t, m - 1) then MessageGas(b, t, m - 1) else 0
  }

  /** What is saved for a message. */
  function SaveOf(b: Block, t: nat, m: nat): Save
    requires Indexed(b, t, m)
  {
    var tx, msg := b.txs[t], b.txs[t].msgs[m];
    Save(msg.hash, TxResult(
      b.height, t % TWO_32, m % TWO_32, ToInt32(IndexedBefore(b, t, m)),
      !tx.codeOk || msg.parsed.value.failed,
      MessageGas(b, t, m), (GasBefore(b, t, m) + MessageGas(b, t, m)) % TWO_64))
  }

  // --------------------------------------------------------------- what is saved where

  lemma {:induction false} BeforeGrows(b: Block, t: nat, m: nat, n: nat)
    requires t < |b.txs| && m <= n <= |b.txs[t].msgs|
    ensures IndexedBefore(b, t, m) <= IndexedBefore(b, t, n)
    ensures m < n && Indexed(b, t, m) ==> IndexedBefore(b, t, m) < IndexedBefore(b, t, n)
    decreases n
  {
    hide Indexed;
    if m < n { BeforeGrows(b, t, m, n - 1); }
  }

  lemma {:induction false} NothingIndexed(b: Block, t: nat, m: nat)
    requires t < |b.txs| && m <= |b.txs[t].msgs| && !Relevant(b.txs[t])
    ensures IndexedBefore(b, t, m) == IndexedBefore(b, t, 0)
  {
    if m > 0 { NothingIndexed(b, t, m - 1); }
  }

  /** The saves of a transaction's messages from `j` on. */
  function Rest(b: Block, t: nat, j: nat): seq<Save>
    requires t < |b.txs| && j <= |b.txs[t].msgs|
  {
    MsgSaves(b.height, t, b.txs[t], j, ToUint64(GasBefore(b, t, j)), IndexedBefore(b, t, j))
  }

  lemma {:induction false} RestNext(b: Block, t: nat, j: nat)
    requires t < |b.txs| && j < |b.txs[t].msgs| && Relevant(b.txs[t])
    ensures Rest(b, t, j) == (if Indexed(b, t, j) then [SaveOf(b, t, j)] else []) + Rest(b, t, j + 1)
  {
    var tx, msg := b.txs[t], b.txs[t].msgs[j];
    assert Indexed(b, t, j) <==> Saved(tx, msg);
    if Indexed(b, t, j) {
      assert GasUsed(tx, msg) == MessageGas(b, t, j) && Failed(tx, msg) == SaveOf(b, t, j).rec.failed;
      ModAbsorb(GasBefore(b, t, j), MessageGas(b, t, j));
    } else {
      assert [] + Rest(b, t, j + 1) == Rest(b, t, j + 1);
    }
    hide ToInt32;
  }

  lemma {:induction false} RestAt(b: Block, t: nat, j: nat, m: nat)
    requires t < |b.txs| && j <= m <= |b.txs[t].msgs| && Relevant(b.txs[t])
    ensures |Rest(b, t, j)| == IndexedBefore(b, t, |b.txs[t].msgs|) - IndexedBefore(b, t, j)
    ensures Indexed(b, t, m) ==>
              var k := IndexedBefore(b, t, m) - IndexedBefore(b, t, j);
              0 <= k < |Rest(b, t, j)| && Rest(b, t, j)[k] == SaveOf(b, t, m)
    decreases |b.txs[t].msgs| - j
  {
    hide Indexed, SaveOf, Relevant;
    if j < |b.txs[t].msgs| {
      RestNext(b, t, j);
      RestAt(b, t, j + 1, if j < m then m else j + 1);
      if j < m { BeforeGrows(b, t, j + 1, m); }
    } else if Indexed(b, t, m) {
      IndexedRange(b, t, m);
    }
  }

  lemma {:induction false} TxAt(b: Block, t: nat, m: nat)
    requires t < |b.txs| && m <= |b.txs[t].msgs|
    ensures var s := TxSaves(b.height, t, b.txs[t], IndexedBefore(b, t, 0));
            && |s| == IndexedBefore(b, t + 1, 0) - IndexedBefore(b, t, 0)
            && (Indexed(b, t, m) ==>
                  var k := IndexedBefore(b, t, m) - IndexedBefore(b, t, 0);
                  0 <= k < |s| && s[k] == SaveOf(b, t, m))
  {
    hide MsgSaves, SaveOf;
    if Relevant(b.txs[t]) {
      RestAt(b, t, 0, m);
    } else {
      NothingIndexed(b, t, |b.txs[t].msgs|);
    }
  }

  lemma {:induction false} PlacesGrow(b: Block, t: nat, u: nat)
    requires t <= u <= |b.txs|
    ensures IndexedBefore(b, t, 0) <= IndexedBefore(b, u, 0)
    decreases u
  {
    if t < u {
      PlacesGrow(b, t, u - 1);
      BeforeGrows(b, u - 1, 0, |b.txs[u - 1].msgs|);
    }
  }

  lemma {:induction false} SavesFromAt(b: Block, t: nat, u: nat, m: nat)
    requires t <= |b.txs| && t <= u && (Indexed(b, u, m) || (u, m) == (|b.txs|, 0))
    ensures var s := SavesFrom(b, t, IndexedBefore(b, t, 0));
            && |s| == IndexedBefore(b, |b.txs|, 0) - IndexedBefore(b, t, 0)
            && (Indexed(b, u, m) ==>
                  var k := IndexedBefore(b, u, m) - IndexedBefore(b, t, 0);
                  0 <= k < |s| && s[k] == SaveOf(b, u, m))
    decreases |b.txs| - t
  {
    hide Indexed, SaveOf, TxSaves, IndexedBefore;
    if t < |b.txs| {
      PlacesGrow(b, t, t + 1);
      if u == t {
        IndexedRange(b, u, m);
        TxAt(b, t, m);
        SavesFromAt(b, t + 1, |b.txs|, 0);
      } else {
        TxAt(b, t, 0);
        SavesFromAt(b, t + 1, u, m);
      }
    } else if Indexed(b, u, m) {
      IndexedRange(b, u, m);
    }
  }

  lemma {:induction false} IndexedRange(b: Block, t: nat, m: nat)
    requires Indexed(b, t, m)
    ensures t < |b.txs| && m < |b.txs[t].msgs|
  {
  }

  /** A message is saved at the place that counts the indexed messages before it in the
      block, with every field of its record as the block gives it; there are no other
      saves. */
  lemma {:induction false} MessageAtPlace(b: Block, t: nat, m: nat)
    requires Indexed(b, t, m)
    ensures |Saves(b)| == IndexedBefore(b, |b.txs|, 0)
    ensures IndexedBefore(b, t, m) < |Saves(b)| && Saves(b)[IndexedBefore(b, t, m)] == SaveOf(b, t, m)
  {
    hide Indexed, SaveOf, SavesFrom;
    SavesFromAt(b, 0, t, m);
  }

  /** The message at a place. */
  lemma {:induction false} MessageBefore(b: Block, t: nat, m: nat, i: nat) returns (u: nat, n: nat)
    requires t <= |b.txs| && m <= (if t < |b.txs| then |b.txs[t].msgs| else 0) && i < IndexedBefore(b, t, m)
    ensures Indexed(b, u, n) && IndexedBefore(b, u, n) == i && (u < t || (u == t && n < m))
    decreases t, m
  {
    hide Indexed;
    if m > 0 {
      if Indexed(b, t, m - 1) && i == IndexedBefore(b, t, m - 1) {
        u, n := t, m - 1;
      } else {
        u, n := MessageBefore(b, t, m - 1, i);
      }
    } else {
      u, n := MessageBefore(b, t - 1, |b.txs[t - 1].msgs|, i);
    }
    if Indexed(b, u, n) { IndexedRange(b, u, n); }
  }

  /** The saves are in block order: of two of them, the earlier one records a message of an
      earlier transaction, or an earlier message of the same one. */
  lemma {:induction false} SavesInOrder(b: Block, i: nat, j: nat) returns (t: nat, m: nat, u: nat, n: nat)
    requires i < j < |Saves(b)|
    ensures Indexed(b, t, m) && Indexed(b, u, n) && (t < u || (t == u && m < n))
    ensures Saves(b)[i] == SaveOf(b, t, m) && Saves(b)[j] == SaveOf(b, u, n)
  {
    hide Indexed, SaveOf, SavesFrom;
    SavesFromAt(b, 0, |b.txs|, 0);
    u, n := MessageBefore(b, |b.txs|, 0, j);
    IndexedRange(b, u, n);
    t, m := MessageBefore(b, u, n, i);
    MessageAtPlace(b, t, m);
    MessageAtPlace(b, u, n);
  }

  /** Looking up the height of an indexed block and the number of a message in it, counted
      in block order, returns that message's record. */
  lemma {:induction false} LookupMessage(c: Chain, hs: seq<nat>, h: nat, t: nat, m: nat)
    requires IsChain(c) && DistinctHashes(c) && Heights(hs) && h in hs && Indexed(c(h), t, m)
    ensures 1 <= h < TWO_63 && IndexedBefore(c(h), t, m) < TWO_31
    ensures LookupIndex(PutAll(map[], LogOf(c, hs)), h, IndexedBefore(c(h), t, m)) == Some(SaveOf(c(h), t, m).rec)
  {
    hide Indexed, SaveOf, Saves, LogOf, PutAll, LookupIndex, DistinctHashes;
    IndexedRange(c(h), t, m);
    MessageAtPlace(c(h), t, m);
    assert |Saves(c(h))| <= TWO_31;
    LookupComplete(c, hs, h, IndexedBefore(c(h), t, m));
  }
}
