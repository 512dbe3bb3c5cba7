/** The EVM transaction index on a key-value database (indexer/kv_indexer.go): what a
    block writes, and what the lookups make of any store such writes can lead to. */
module KvIndexer {
  import opened Bits
  import opened Options
  import opened Endian
  import opened KvKeys
  import opened TxResultCodec

  type Db = map<Bytes, Bytes>

  // --------------------------------------------------------------------- blocks

  /** What the events of a transaction say about one of its messages. */
  datatype ParsedTx = ParsedTx(gasUsed: uint64, failed: bool)

  /** An Ethereum message with its gas limit and its parsed event, if there is one. */
  datatype EthMsg = EthMsg(hash: Hash, gas: uint64, parsed: Option<ParsedTx>)

  /** A Cosmos transaction with its result: whether it succeeded or failed in an
      expected way, whether it decodes, is an Ethereum transaction and has parseable
      events, and whether its result code is OK. */
  datatype Tx = Tx(expected: bool, decodes: bool, isEth: bool, parses: bool, codeOk: bool, msgs: seq<EthMsg>)

  datatype Block = Block(height: int64, txs: seq<Tx>)

  /** One call of saveTxResult. */
  datatype Save = Save(hash: Hash, rec: TxResult)

  predicate Relevant(tx: Tx) {
    tx.expected && tx.decodes && tx.isEth && tx.parses
  }

  /** A message is passed over when its transaction succeeded without an event for it. */
  predicate Saved(tx: Tx, msg: EthMsg) {
    tx.codeOk ==> msg.parsed.Some?
  }

  function GasUsed(tx: Tx, msg: EthMsg): uint64
    requires Saved(tx, msg)
  {
    if tx.codeOk then msg.parsed.value.gasUsed else msg.gas
  }

  function Failed(tx: Tx, msg: EthMsg): bool
    requires Saved(tx, msg)
  {
    if tx.codeOk then msg.parsed.value.failed else true
  }

  /** The saves of the messages of `tx` from index `j` on; `t` is the transaction's
      index, `cum` the gas used before and `eth` the next Ethereum index. */
  function MsgSaves(height: int64, t: nat, tx: Tx, j: nat, cum: uint64, eth: nat): seq<Save>
    requires j <= |tx.msgs|
    decreases |tx.msgs| - j
  {
    if j == |tx.msgs| then []
    else
      var msg := tx.msgs[j];
      if !Saved(tx, msg) then MsgSaves(height, t, tx, j + 1, cum, eth)
      else
        var cum' := ToUint64(cum + GasUsed(tx, msg));
        var rec := TxResult(height, ToUint32(t), ToUint32(j), ToInt32(eth), Failed(tx, msg), GasUsed(tx, msg), cum');
        [Save(msg.hash, rec)] + MsgSaves(height, t, tx, j + 1, cum', eth + 1)
  }

  function TxSaves(height: int64, t: nat, tx: Tx, eth: nat): seq<Save> {
    if Relevant(tx) then MsgSaves(height, t, tx, 0, 0, eth) else []
  }

  function SavesFrom(b: Block, t: nat, eth: nat): seq<Save>
    requires t <= |b.txs|
    decreases |b.txs| - t
  {
    if t == |b.txs| then []
    else
      var s := TxSaves(b.height, t, b.txs[t], eth);
      s + SavesFrom(b, t + 1, eth + |s|)
  }

  function Saves(b: Block): seq<Save> {
    SavesFrom(b, 0, 0)
  }

  // ---------------------------------------------------------------------- store

  function Put(db: Db, s: Save): Db {
    db[TxHashKey(s.hash) := Encode(s.rec)][TxIndexKey(s.rec.height, s.rec.ethTxIndex) := s.hash]
  }

  function PutAll(db: Db, saves: seq<Save>): Db {
    if saves == [] then db else Put(PutAll(db, saves[..|saves| - 1]), saves[|saves| - 1])
  }

  /** common.BytesToHash: keeps the last 32 bytes, padded on the left. */
  function BytesToHash(bz: Bytes): Hash {
    if |bz| >= 32 then bz[|bz| - 32..] else seq(32 - |bz|, i => 0) + bz
  }

  /** GetByTxHash: an empty value counts as not found. */
  function LookupHash(db: Db, hash: Hash): Option<TxResult> {
    var k := TxHashKey(hash);
    if k !in db || db[k] == [] then None else DecodeOnto(db[k], ZERO)
  }

  /** GetByBlockAndIndex. */
  function LookupIndex(db: Db, height: int64, txIndex: int32): Option<TxResult> {
    var k := TxIndexKey(height, txIndex);
    if k !in db || db[k] == [] then None else LookupHash(db, BytesToHash(db[k]))
  }

  // ------------------------------------------------- what a log of saves leads to

  /** The record last saved under a hash. */
  function FindHash(log: seq<Save>, hash: Hash): Option<TxResult> {
    if log == [] then None
    else if log[|log| - 1].hash == hash then Some(log[|log| - 1].rec)
    else FindHash(log[..|log| - 1], hash)
  }

  predicate SavedAt(s: Save, height: int64, txIndex: int32) {
    s.rec.height == height && s.rec.ethTxIndex == txIndex
  }

  /** The hash last saved at a height and index. */
  function FindIndex(log: seq<Save>, height: int64, txIndex: int32): Option<Hash> {
    if log == [] then None
    else if SavedAt(log[|log| - 1], height, txIndex) then Some(log[|log| - 1].hash)
    else FindIndex(log[..|log| - 1], height, txIndex)
  }

  /** The store holds, under either kind of key, what was saved there last. */
  lemma {:induction false} StoreHash(log: seq<Save>, hash: Hash)
    ensures var db, k := PutAll(map[], log), TxHashKey(hash);
            match FindHash(log, hash)
            case None => k !in db
            case Some(rec) => k in db && db[k] == Encode(rec)
  {
    hide TxHashKey, TxIndexKey, Encode;
    if log != [] {
      var s := log[|log| - 1];
      StoreHash(log[..|log| - 1], hash);
      KeyFamiliesDisjoint(hash, s.rec.height, s.rec.ethTxIndex);
      if TxHashKey(s.hash) == TxHashKey(hash) { TxHashKeyInjective(s.hash, hash); }
    }
  }

  lemma {:induction false} StoreIndex(log: seq<Save>, height: int64, txIndex: int32)
    ensures var db, k := PutAll(map[], log), TxIndexKey(height, txIndex);
            match FindIndex(log, height, txIndex)
            case None => k !in db
            case Some(hash) => k in db && db[k] == hash
  {
    hide TxHashKey, TxIndexKey, Encode;
    if log != [] {
      var s := log[|log| - 1];
      StoreIndex(log[..|log| - 1], height, txIndex);
      KeyFamiliesDisjoint(s.hash, height, txIndex);
      if TxIndexKey(s.rec.height, s.rec.ethTxIndex) == TxIndexKey(height, txIndex) {
        TxIndexKeyInjective(s.rec.height, s.rec.ethTxIndex, height, txIndex);
      }
    }
  }

  /** An index entry always points to a saved record. */
  lemma {:induction false} IndexResolves(log: seq<Save>, height: int64, txIndex: int32)
    requires FindIndex(log, height, txIndex).Some?
    ensures FindHash(log, FindIndex(log, height, txIndex).value).Some?
  {
    if !SavedAt(log[|log| - 1], height, txIndex) { IndexResolves(log[..|log| - 1], height, txIndex); }
  }

  /** Lookup by hash returns the record saved last under it. It reports a saved hash
      as not found exactly when that record is the zero struct. */
  lemma {:induction false} LookupHashSpec(log: seq<Save>, hash: Hash)
    ensures LookupHash(PutAll(map[], log), hash)
            == match FindHash(log, hash)
               case None => None
               case Some(rec) => if rec == ZERO then None else Some(rec)
  {
    hide PutAll, TxHashKey, FindHash;
    StoreHash(log, hash);
    match FindHash(log, hash)
    case None =>
    case Some(rec) =>
      EncodeEmpty(rec);
      RoundTrip(rec);
  }

  /** Lookup by height and index goes through the hash saved last at that place. */
  lemma {:induction false} LookupIndexSpec(log: seq<Save>, height: int64, txIndex: int32)
    ensures LookupIndex(PutAll(map[], log), height, txIndex)
            == match FindIndex(log, height, txIndex)
               case None => None
               case Some(hash) => LookupHash(PutAll(map[], log), hash)
  {
    hide PutAll, TxIndexKey, FindIndex, LookupHash;
    StoreIndex(log, height, txIndex);
    match FindIndex(log, height, txIndex)
    case None =>
    case Some(hash) => assert hash[0..] == hash;
  }

  // ------------------------------------------------------------ saves of a block

  /** All saves are at one height, at consecutive indices from `eth` on. */
  predicate Consecutive(saves: seq<Save>, height: int64, eth: nat) {
    forall i :: 0 <= i < |saves| ==> SavedAt(saves[i], height, ToInt32(eth + i))
  }

  lemma {:induction false} ConsecutiveConcat(a: seq<Save>, b: seq<Save>, height: int64, eth: nat)
    requires Consecutive(a, height, eth) && Consecutive(b, height, eth + |a|)
    ensures Consecutive(a + b, height, eth)
  {
    hide ToInt32;
    forall i | 0 <= i < |a + b| ensures SavedAt((a + b)[i], height, ToInt32(eth + i)) {
      if i >= |a| {
        assert SavedAt(b[i - |a|], height, ToInt32(eth + |a| + (i - |a|)));
        assert eth + |a| + (i - |a|) == eth + i;
      }
    }
  }

  lemma {:induction false} MsgSavesShape(height: int64, t: nat, tx: Tx, j: nat, cum: uint64, eth: nat)
    requires j <= |tx.msgs|
    ensures Consecutive(MsgSaves(height, t, tx, j, cum, eth), height, eth)
    decreases |tx.msgs| - j
  {
    if j < |tx.msgs| {
      var msg := tx.msgs[j];
      if Saved(tx, msg) {
        var cum' := ToUint64(cum + GasUsed(tx, msg));
        MsgSavesShape(height, t, tx, j + 1, cum', eth + 1);
        var r, rest := MsgSaves(height, t, tx, j, cum, eth), MsgSaves(height, t, tx, j + 1, cum', eth + 1);
        ConsecutiveConcat([r[0]], rest, height, eth);
      } else {
        MsgSavesShape(height, t, tx, j + 1, cum, eth);
      }
    }
  }

  lemma {:induction false} SavesFromShape(b: Block, t: nat, eth: nat)
    requires t <= |b.txs|
    ensures Consecutive(SavesFrom(b, t, eth), b.height, eth)
    decreases |b.txs| - t
  {
    hide MsgSaves;
    if t < |b.txs| {
      var s := TxSaves(b.height, t, b.txs[t], eth);
      if Relevant(b.txs[t]) { MsgSavesShape(b.height, t, b.txs[t], 0, 0, eth); }
      SavesFromShape(b, t + 1, eth + |s|);
      ConsecutiveConcat(s, SavesFrom(b, t + 1, eth + |s|), b.height, eth);
    }
  }

  /** A block of at most 2^31 Ethereum messages saves the indices 0, 1, 2, ... in
      order, all at its own height. */
  lemma {:induction false} SavesShape(b: Block)
    requires |Saves(b)| <= TWO_31
    ensures forall i :: 0 <= i < |Saves(b)| ==> SavedAt(Saves(b)[i], b.height, i)
  {
    SavesFromShape(b, 0, 0);
    hide SavesFrom;
    forall i | 0 <= i < |Saves(b)| ensures SavedAt(Saves(b)[i], b.height, i) {
      assert SavedAt(Saves(b)[i], b.height, ToInt32(0 + i));
    }
  }

  /** The save records message `m` of transaction `t` of the block: its hash, both
      indices, and its gas and failure as the events, or for a failed transaction the
      message itself, tell them. */
  predicate IsRecordOf(b: Block, s: Save, t: nat, m: nat) {
    && t < |b.txs| && Relevant(b.txs[t])
    && m < |b.txs[t].msgs|
    && IsRecordOfMsg(b.txs[t], s, t, m)
  }

  predicate IsRecordOfMsg(tx: Tx, s: Save, t: nat, m: nat)
    requires m < |tx.msgs|
  {
    var msg := tx.msgs[m];
    && s.hash == msg.hash && s.rec.txIndex == ToUint32(t) && s.rec.msgIndex == ToUint32(m)
    && if tx.codeOk
       then msg.parsed == Some(ParsedTx(s.rec.gasUsed, s.rec.failed))
       else s.rec.gasUsed == msg.gas && s.rec.failed
  }

  lemma {:induction false} MsgOrigin(
      height: int64, t: nat, tx: Tx, j: nat, cum: uint64, eth: nat, i: nat)
    returns (m: nat)
    requires j <= |tx.msgs| && i < |MsgSaves(height, t, tx, j, cum, eth)|
    ensures j <= m < |tx.msgs| && IsRecordOfMsg(tx, MsgSaves(height, t, tx, j, cum, eth)[i], t, m)
    decreases |tx.msgs| - j
  {
    hide ToInt32, ToUint32, ToUint64;
    var msg := tx.msgs[j];
    if !Saved(tx, msg) {
      m := MsgOrigin(height, t, tx, j + 1, cum, eth, i);
    } else if i == 0 {
      m := j;
    } else {
      m := MsgOrigin(height, t, tx, j + 1, ToUint64(cum + GasUsed(tx, msg)), eth + 1, i - 1);
    }
  }

  lemma {:induction false} MsgRecorded(
      height: int64, t: nat, tx: Tx, j: nat, cum: uint64, eth: nat, m: nat)
    returns (i: nat)
    requires j <= m < |tx.msgs| && Saved(tx, tx.msgs[m])
    ensures i < |MsgSaves(height, t, tx, j, cum, eth)|
    ensures IsRecordOfMsg(tx, MsgSaves(height, t, tx, j, cum, eth)[i], t, m)
    decreases |tx.msgs| - j
  {
    hide ToInt32, ToUint32, ToUint64;
    var msg := tx.msgs[j];
    if !Saved(tx, msg) {
      i := MsgRecorded(height, t, tx, j + 1, cum, eth, m);
    } else if j == m {
      i := 0;
    } else {
      var k := MsgRecorded(height, t, tx, j + 1, ToUint64(cum + GasUsed(tx, msg)), eth + 1, m);
      i := k + 1;
    }
  }

  lemma {:induction false} SaveOriginFrom(b: Block, t: nat, eth: nat, i: nat) returns (u: nat, m: nat)
    requires t <= |b.txs| && i < |SavesFrom(b, t, eth)|
    ensures IsRecordOf(b, SavesFrom(b, t, eth)[i], u, m)
    decreases |b.txs| - t
  {
    hide MsgSaves, IsRecordOfMsg;
    var s := TxSaves(b.height, t, b.txs[t], eth);
    if i < |s| {
      u := t;
      m := MsgOrigin(b.height, t, b.txs[t], 0, 0, eth, i);
    } else {
      u, m := SaveOriginFrom(b, t + 1, eth + |s|, i - |s|);
    }
  }

  lemma {:induction false} MessageRecordedFrom(b: Block, t: nat, eth: nat, u: nat, m: nat) returns (i: nat)
    requires t <= u < |b.txs| && Relevant(b.txs[u]) && m < |b.txs[u].msgs| && Saved(b.txs[u], b.txs[u].msgs[m])
    ensures i < |SavesFrom(b, t, eth)| && IsRecordOf(b, SavesFrom(b, t, eth)[i], u, m)
    decreases |b.txs| - t
  {
    hide MsgSaves, IsRecordOfMsg;
    var s := TxSaves(b.height, t, b.txs[t], eth);
    if t == u {
      i := MsgRecorded(b.height, t, b.txs[t], 0, 0, eth, m);
    } else {
      var k := MessageRecordedFrom(b, t + 1, eth + |s|, u, m);
      i := |s| + k;
    }
  }

  /** Every save of a block records one of its messages. */
  lemma {:induction false} SaveOrigin(b: Block, i: nat) returns (t: nat, m: nat)
    requires i < |Saves(b)|
    ensures IsRecordOf(b, Saves(b)[i], t, m)
  {
    t, m := SaveOriginFrom(b, 0, 0, i);
  }

  /** Every message of an Ethereum transaction that failed, or has an event, is recorded. */
  lemma {:induction false} MessageRecorded(b: Block, t: nat, m: nat) returns (i: nat)
    requires t < |b.txs| && Relevant(b.txs[t]) && m < |b.txs[t].msgs| && Saved(b.txs[t], b.txs[t].msgs[m])
    ensures i < |Saves(b)| && IsRecordOf(b, Saves(b)[i], t, m)
  {
    i := MessageRecordedFrom(b, 0, 0, t, m);
  }

  function GasSum(saves: seq<Save>): nat {
    if saves == [] then 0 else GasSum(saves[..|saves| - 1]) + saves[|saves| - 1].rec.gasUsed
  }

  /** The cumulative gas of each save is `cum` plus the gas of the saves up to it. */
  ghost predicate Accumulates(saves: seq<Save>, cum: uint64) {
    forall i :: 0 <= i < |saves| ==> saves[i].rec.cumulativeGasUsed == ToUint64(cum + GasSum(saves[..i + 1]))
  }

  lemma {:induction false} GasPrefix(s: Save, rest: seq<Save>, cum: uint64, i: nat)
    requires i <= |rest|
    ensures ToUint64(cum + GasSum(([s] + rest)[..i + 1])) == ToUint64(ToUint64(cum + s.rec.gasUsed) + GasSum(rest[..i]))
  {
    hide ToUint64, GasSum;
    assert ([s] + rest)[..i + 1] == [s] + rest[..i];
    GasSumCons(s, rest[..i]);
    ModAbsorb(cum + s.rec.gasUsed, GasSum(rest[..i]));
  }

  lemma {:induction false} AccumulatesCons(s: Save, rest: seq<Save>, cum: uint64)
    requires s.rec.cumulativeGasUsed == ToUint64(cum + s.rec.gasUsed) && Accumulates(rest, s.rec.cumulativeGasUsed)
    ensures Accumulates([s] + rest, cum)
  {
    assert GasSum(rest[..0]) == 0 && ToUint64(s.rec.cumulativeGasUsed) == s.rec.cumulativeGasUsed;
    hide ToUint64, GasSum;
    forall i | 0 <= i < |[s] + rest|
      ensures ([s] + rest)[i].rec.cumulativeGasUsed == ToUint64(cum + GasSum(([s] + rest)[..i + 1]))
    {
      GasPrefix(s, rest, cum, i);
      assert i > 0 ==> rest[..(i - 1) + 1] == rest[..i];
    }
  }

  /** Within a transaction the saves accumulate its gas. */
  lemma {:induction false} CumulativeGas(height: int64, t: nat, tx: Tx, j: nat, cum: uint64, eth: nat)
    requires j <= |tx.msgs|
    ensures Accumulates(MsgSaves(height, t, tx, j, cum, eth), cum)
    decreases |tx.msgs| - j
  {
    hide ToInt32, ToUint32, ToUint64, GasSum;
    if j < |tx.msgs| {
      var msg := tx.msgs[j];
      if Saved(tx, msg) {
        var cum' := ToUint64(cum + GasUsed(tx, msg));
        CumulativeGas(height, t, tx, j + 1, cum', eth + 1);
        AccumulatesCons(MsgSaves(height, t, tx, j, cum, eth)[0], MsgSaves(height, t, tx, j + 1, cum', eth + 1), cum);
      } else {
        CumulativeGas(height, t, tx, j + 1, cum, eth);
      }
    }
  }

  lemma {:induction false} GasSumCons(s: Save, rest: seq<Save>)
    ensures GasSum([s] + rest) == s.rec.gasUsed + GasSum(rest)
  {
    var all := [s] + rest;
    if rest == [] {
      assert all[..|all| - 1] == [];
    } else {
      GasSumCons(s, rest[..|rest| - 1]);
      assert all[..|all| - 1] == [s] + rest[..|rest| - 1];
    }
  }

  lemma {:induction false} ModAbsorb(x: nat, y: nat)
    ensures ToUint64(ToUint64(x) + y) == ToUint64(x + y)
  {
  }

  // --------------------------------------------------------------- saves of a chain

  /** Blocks by height; saved indices fit their type. */
  type Chain = nat -> Block

  ghost predicate IsChain(c: Chain) {
    forall h: nat :: 1 <= h < TWO_63 ==> c(h).height == h && |Saves(c(h))| <= TWO_31
  }

  /** The saves made by indexing the blocks at these heights one after the other. */
  ghost function LogOf(c: Chain, hs: seq<nat>): seq<Save> {
    if hs == [] then [] else LogOf(c, hs[..|hs| - 1]) + Saves(c(hs[|hs| - 1]))
  }

  predicate Heights(hs: seq<nat>) {
    forall i :: 0 <= i < |hs| ==> 1 <= hs[i] < TWO_63
  }

  /** No two Ethereum messages of the chain carry the same hash. */
  ghost predicate DistinctHashes(c: Chain) {
    forall h: nat, i: nat, h': nat, i': nat ::
      (&& 1 <= h < TWO_63 && i < |Saves(c(h))|
       && 1 <= h' < TWO_63 && i' < |Saves(c(h'))|
       && Saves(c(h))[i].hash == Saves(c(h'))[i'].hash) ==> h == h' && i == i'
  }

  lemma {:induction false} PutAllAppend(db: Db, a: seq<Save>, b: seq<Save>)
    ensures PutAll(db, a + b) == PutAll(PutAll(db, a), b)
  {
    hide Put;
    if b == [] {
      assert a + b == a;
    } else {
      PutAllAppend(db, a, b[..|b| - 1]);
      assert (a + b)[..|a + b| - 1] == a + b[..|b| - 1];
    }
  }

  /** Every save of the log is the save of some indexed block at some position. */
  lemma {:induction false} LogOrigin(c: Chain, hs: seq<nat>, j: nat) returns (h: nat, i: nat)
    requires j < |LogOf(c, hs)|
    ensures h in hs && i < |Saves(c(h))| && LogOf(c, hs)[j] == Saves(c(h))[i]
  {
    hide Saves;
    var n := |hs| - 1;
    var before := LogOf(c, hs[..n]);
    if j < |before| {
      h, i := LogOrigin(c, hs[..n], j);
    } else {
      h, i := hs[n], j - |before|;
    }
  }

  /** Conversely, every save of an indexed block is in the log. */
  lemma {:induction false} LogHolds(c: Chain, hs: seq<nat>, h: nat, i: nat) returns (j: nat)
    requires h in hs && i < |Saves(c(h))|
    ensures j < |LogOf(c, hs)| && LogOf(c, hs)[j] == Saves(c(h))[i]
  {
    hide Saves;
    var n := |hs| - 1;
    assert hs == hs[..n] + [hs[n]];
    if h == hs[n] {
      j := |LogOf(c, hs[..n])| + i;
    } else {
      j := LogHolds(c, hs[..n], h, i);
    }
  }

  lemma {:induction false} FindHashUnique(log: seq<Save>, j: nat)
    requires j < |log|
    requires forall k :: 0 <= k < |log| && log[k].hash == log[j].hash ==> log[k].rec == log[j].rec
    ensures FindHash(log, log[j].hash) == Some(log[j].rec)
  {
    var n := |log| - 1;
    if log[n].hash != log[j].hash {
      assert forall k :: 0 <= k < n ==> log[..n][k] == log[k];
      FindHashUnique(log[..n], j);
    }
  }

  lemma {:induction false} FindIndexUnique(log: seq<Save>, j: nat)
    requires j < |log|
    requires forall k :: 0 <= k < |log| && SavedAt(log[k], log[j].rec.height, log[j].rec.ethTxIndex) ==>
               log[k].hash == log[j].hash
    ensures FindIndex(log, log[j].rec.height, log[j].rec.ethTxIndex) == Some(log[j].hash)
  {
    var n := |log| - 1;
    if !SavedAt(log[n], log[j].rec.height, log[j].rec.ethTxIndex) {
      assert forall k :: 0 <= k < n ==> log[..n][k] == log[k];
      FindIndexUnique(log[..n], j);
    }
  }

  /** A save of an indexed block is what both lookups of the log find for it. */
  lemma {:induction false} SaveFound(c: Chain, hs: seq<nat>, h: nat, i: nat)
    requires IsChain(c) && DistinctHashes(c) && Heights(hs)
    requires h in hs && i < |Saves(c(h))|
    ensures var s := Saves(c(h))[i];
            && SavedAt(s, h, i)
            && FindHash(LogOf(c, hs), s.hash) == Some(s.rec)
            && FindIndex(LogOf(c, hs), h, i) == Some(s.hash)
  {
    hide Saves, FindHash, FindIndex, LogOf;
    var log := LogOf(c, hs);
    SavesShape(c(h));
    var j := LogHolds(c, hs, h, i);
    forall k | 0 <= k < |log|
      ensures log[k].hash == log[j].hash || SavedAt(log[k], h, i) ==> log[k] == log[j]
    {
      var h', i' := LogOrigin(c, hs, k);
      SavesShape(c(h'));
      assert SavedAt(Saves(c(h'))[i'], h', i');
    }
    FindHashUnique(log, j);
    FindIndexUnique(log, j);
  }

  /** With distinct hashes, looking up a height and index returns the record of that
      very message when its block was indexed, and is not found otherwise. */
  lemma {:induction false} LookupComplete(c: Chain, hs: seq<nat>, h: nat, i: nat)
    requires IsChain(c) && DistinctHashes(c) && Heights(hs) && 1 <= h < TWO_63 && i < TWO_31
    ensures LookupIndex(PutAll(map[], LogOf(c, hs)), h, i)
            == if h in hs && i < |Saves(c(h))| then Some(Saves(c(h))[i].rec) else None
  {
    hide Saves, PutAll, LookupIndex, LookupHash, FindHash, FindIndex, LogOf;
    var log := LogOf(c, hs);
    LookupIndexSpec(log, h, i);
    if h in hs && i < |Saves(c(h))| {
      SaveFound(c, hs, h, i);
      LookupHashSpec(log, Saves(c(h))[i].hash);
    } else {
      forall k | 0 <= k < |log| ensures !SavedAt(log[k], h, i) {
        var h', i' := LogOrigin(c, hs, k);
        SavesShape(c(h'));
        assert SavedAt(Saves(c(h'))[i'], h', i');
      }
      FindIndexAbsent(log, h, i);
    }
  }

  lemma {:induction false} FindIndexAbsent(log: seq<Save>, height: int64, txIndex: int32)
    requires forall k :: 0 <= k < |log| ==> !SavedAt(log[k], height, txIndex)
    ensures FindIndex(log, height, txIndex) == None
  {
    if log != [] {
      assert forall k :: 0 <= k < |log| - 1 ==> log[..|log| - 1][k] == log[k];
      FindIndexAbsent(log[..|log| - 1], height, txIndex);
    }
  }

  // ---------------------------------------------------------------- re-indexing

  lemma {:induction false} FindHashAppend(a: seq<Save>, b: seq<Save>, hash: Hash)
    ensures FindHash(a + b, hash) == if FindHash(b, hash).Some? then FindHash(b, hash) else FindHash(a, hash)
  {
    if b == [] {
      assert a + b == a;
    } else {
      FindHashAppend(a, b[..|b| - 1], hash);
      assert (a + b)[..|a + b| - 1] == a + b[..|b| - 1];
    }
  }

  lemma {:induction false} FindIndexAppend(a: seq<Save>, b: seq<Save>, height: int64, txIndex: int32)
    ensures FindIndex(a + b, height, txIndex)
            == var own := FindIndex(b, height, txIndex); if own.Some? then own else FindIndex(a, height, txIndex)
  {
    if b == [] {
      assert a + b == a;
    } else {
      FindIndexAppend(a, b[..|b| - 1], height, txIndex);
      assert (a + b)[..|a + b| - 1] == a + b[..|b| - 1];
    }
  }

  predicate Writes(s: Save, k: Bytes) {
    k == TxHashKey(s.hash) || k == TxIndexKey(s.rec.height, s.rec.ethTxIndex)
  }

  /** Whether a key is one of the two some save writes. */
  ghost predicate KeyOf(log: seq<Save>, k: Bytes) {
    exists i :: 0 <= i < |log| && Writes(log[i], k)
  }

  lemma {:induction false} StoreKeys(log: seq<Save>, k: Bytes)
    requires k in PutAll(map[], log)
    ensures KeyOf(log, k)
  {
    hide TxHashKey, TxIndexKey, Encode;
    var n := |log| - 1;
    if !Writes(log[n], k) {
      StoreKeys(log[..n], k);
      var i :| 0 <= i < n && Writes(log[..n][i], k);
      assert log[i] == log[..n][i];
    }
  }

  /** What both kinds of lookup find in the logs. */
  ghost predicate SameFinds(a: seq<Save>, b: seq<Save>) {
    && (forall hash: Hash :: FindHash(a, hash) == FindHash(b, hash))
    && (forall h: int64, i: int32 :: FindIndex(a, h, i) == FindIndex(b, h, i))
  }

  lemma {:induction false} StoreKeyFound(a: seq<Save>, b: seq<Save>, k: Bytes)
    requires SameFinds(a, b) && k in PutAll(map[], a)
    ensures k in PutAll(map[], b) && PutAll(map[], a)[k] == PutAll(map[], b)[k]
  {
    hide TxHashKey, TxIndexKey, Encode, PutAll, FindHash, FindIndex;
    StoreKeys(a, k);
    var i :| 0 <= i < |a| && Writes(a[i], k);
    if k == TxHashKey(a[i].hash) {
      StoreHash(a, a[i].hash);
      StoreHash(b, a[i].hash);
    } else {
      StoreIndex(a, a[i].rec.height, a[i].rec.ethTxIndex);
      StoreIndex(b, a[i].rec.height, a[i].rec.ethTxIndex);
    }
  }

  /** Stores are equal when their logs find the same. */
  lemma {:induction false} StoresEqual(a: seq<Save>, b: seq<Save>)
    requires SameFinds(a, b)
    ensures PutAll(map[], a) == PutAll(map[], b)
  {
    hide SameFinds, PutAll;
    SameFindsSymmetric(a, b);
    var x, y := PutAll(map[], a), PutAll(map[], b);
    forall k: Bytes ensures k in x <==> k in y {
      if k in x { StoreKeyFound(a, b, k); }
      if k in y { StoreKeyFound(b, a, k); }
    }
    forall k: Bytes | k in x ensures x[k] == y[k] { StoreKeyFound(a, b, k); }
  }

  lemma {:induction false} SameFindsSymmetric(a: seq<Save>, b: seq<Save>)
    requires SameFinds(a, b)
    ensures SameFinds(b, a)
  {
  }

  /** At the places of an indexed block the log holds that block's hashes. */
  lemma {:induction false} PlacesFound(c: Chain, hs: seq<nat>, h: nat, i: nat)
    requires IsChain(c) && Heights(hs) && h in hs && i < |Saves(c(h))|
    ensures SavedAt(Saves(c(h))[i], h, i) && FindIndex(LogOf(c, hs), h, i) == Some(Saves(c(h))[i].hash)
  {
    hide Saves, FindIndex, LogOf;
    var log := LogOf(c, hs);
    SavesShape(c(h));
    var j := LogHolds(c, hs, h, i);
    forall k | 0 <= k < |log| && SavedAt(log[k], h, i) ensures log[k].hash == log[j].hash {
      var h', i' := LogOrigin(c, hs, k);
      SavesShape(c(h'));
      assert SavedAt(Saves(c(h'))[i'], h', i');
    }
    FindIndexUnique(log, j);
  }

  /** The hash found at a place of a block's own saves. */
  lemma {:induction false} OwnPlaces(saves: seq<Save>, height: int64, txIndex: int32) returns (i: nat)
    requires FindIndex(saves, height, txIndex).Some?
    ensures i < |saves| && SavedAt(saves[i], height, txIndex)
    ensures FindIndex(saves, height, txIndex) == Some(saves[i].hash)
  {
    var n := |saves| - 1;
    if SavedAt(saves[n], height, txIndex) { i := n; } else { i := OwnPlaces(saves[..n], height, txIndex); }
  }

  lemma {:induction false} OwnHashes(saves: seq<Save>, hash: Hash) returns (i: nat)
    requires FindHash(saves, hash).Some?
    ensures i < |saves| && saves[i].hash == hash
  {
    var n := |saves| - 1;
    if saves[n].hash == hash { i := n; } else { i := OwnHashes(saves[..n], hash); }
  }

  /** For every hash of the block, the record saved last under it is the one the block
      itself saves last under it. */
  ghost predicate LastRecords(log: seq<Save>, saves: seq<Save>) {
    forall i :: 0 <= i < |saves| ==> FindHash(log, saves[i].hash) == FindHash(saves, saves[i].hash)
  }

  lemma {:induction false} ReindexFinds(c: Chain, hs: seq<nat>, h: nat)
    requires IsChain(c) && Heights(hs) && h in hs && LastRecords(LogOf(c, hs), Saves(c(h)))
    ensures SameFinds(LogOf(c, hs) + Saves(c(h)), LogOf(c, hs))
  {
    hide Saves, FindHash, FindIndex, LogOf;
    var log, saves := LogOf(c, hs), Saves(c(h));
    forall hash: Hash ensures FindHash(log + saves, hash) == FindHash(log, hash) {
      FindHashAppend(log, saves, hash);
      if FindHash(saves, hash).Some? { var i := OwnHashes(saves, hash); }
    }
    forall g: int64, j: int32 ensures FindIndex(log + saves, g, j) == FindIndex(log, g, j) {
      FindIndexAppend(log, saves, g, j);
      if FindIndex(saves, g, j).Some? {
        var i := OwnPlaces(saves, g, j);
        PlacesFound(c, hs, h, i);
      }
    }
  }

  /** Equal stores hold equal records. */
  lemma {:induction false} SameStoreFinds(a: seq<Save>, b: seq<Save>, hash: Hash)
    requires PutAll(map[], a) == PutAll(map[], b)
    ensures FindHash(a, hash) == FindHash(b, hash)
  {
    hide PutAll, FindHash, TxHashKey;
    StoreHash(a, hash);
    StoreHash(b, hash);
    if FindHash(a, hash).Some? && FindHash(b, hash).Some? {
      RoundTrip(FindHash(a, hash).value);
      RoundTrip(FindHash(b, hash).value);
    }
  }

  /** Indexing a block again leaves the store as it is exactly when, for every hash of the
      block, the record saved last under it is the block's own last one. */
  lemma {:induction false} Reindex(c: Chain, hs: seq<nat>, h: nat)
    requires IsChain(c) && Heights(hs) && h in hs
    ensures PutAll(map[], LogOf(c, hs + [h])) == PutAll(map[], LogOf(c, hs)) <==> LastRecords(LogOf(c, hs), Saves(c(h)))
  {
    var log, saves := LogOf(c, hs), Saves(c(h));
    assert LogOf(c, hs + [h]) == log + saves by { assert (hs + [h])[..|hs|] == hs; }
    hide Saves, PutAll, FindHash, FindIndex, LogOf, IsChain;
    if LastRecords(log, saves) {
      ReindexFinds(c, hs, h);
      StoresEqual(log + saves, log);
    }
    if PutAll(map[], log + saves) == PutAll(map[], log) {
      forall i | 0 <= i < |saves| ensures FindHash(log, saves[i].hash) == FindHash(saves, saves[i].hash) {
        SameStoreFinds(log + saves, log, saves[i].hash);
        FindHashAppend(log, saves, saves[i].hash);
        var k := FindHashLast(saves, i);
      }
    }
  }

  /** With distinct hashes this is always so. */
  lemma {:induction false} ReindexDistinct(c: Chain, hs: seq<nat>, h: nat)
    requires IsChain(c) && DistinctHashes(c) && Heights(hs) && h in hs
    ensures PutAll(map[], LogOf(c, hs + [h])) == PutAll(map[], LogOf(c, hs))
  {
    var log, saves := LogOf(c, hs), Saves(c(h));
    hide Saves, PutAll, FindHash, FindIndex, LogOf;
    forall i | 0 <= i < |saves| ensures FindHash(log, saves[i].hash) == FindHash(saves, saves[i].hash) {
      SaveFound(c, hs, h, i);
      forall k | 0 <= k < |saves| && saves[k].hash == saves[i].hash ensures saves[k].rec == saves[i].rec {
        assert k == i;
      }
      FindHashUnique(saves, i);
    }
    Reindex(c, hs, h);
  }

  // --------------------------------------------------------- a hash saved twice

  /** Whether `j` is the last save at its height and index. */
  ghost predicate LastAtPlace(log: seq<Save>, j: nat) {
    && j < |log|
    && forall k :: j < k < |log| ==> !SavedAt(log[k], log[j].rec.height, log[j].rec.ethTxIndex)
  }

  /** A place answers with its own record exactly when its hash was not saved again
      afterwards at some other place; otherwise it answers with the later record. */
  lemma {:induction false} LookupOwnRecord(log: seq<Save>, j: nat)
    requires LastAtPlace(log, j) && forall i :: 0 <= i < |log| ==> log[i].rec.height != 0
    ensures var r := log[j].rec;
            var found := LookupIndex(PutAll(map[], log), r.height, r.ethTxIndex);
            && found.Some?
            && (found.value.height == r.height && found.value.ethTxIndex == r.ethTxIndex
                <==> forall k :: j < k < |log| ==> log[k].hash != log[j].hash)
  {
    hide PutAll, LookupIndex, LookupHash, FindHash, FindIndex;
    var r := log[j].rec;
    FindIndexLast(log, j);
    var k := FindHashLast(log, j);
    LookupIndexSpec(log, r.height, r.ethTxIndex);
    LookupHashSpec(log, log[j].hash);
    assert k != j ==> !SavedAt(log[k], r.height, r.ethTxIndex);
  }

  lemma {:induction false} FindIndexLast(log: seq<Save>, j: nat)
    requires LastAtPlace(log, j)
    ensures FindIndex(log, log[j].rec.height, log[j].rec.ethTxIndex) == Some(log[j].hash)
  {
    var n := |log| - 1;
    if j < n { FindIndexLast(log[..n], j); }
  }

  lemma {:induction false} FindHashLast(log: seq<Save>, j: nat) returns (k: nat)
    requires j < |log|
    ensures j <= k < |log| && log[k].hash == log[j].hash
    ensures FindHash(log, log[j].hash) == Some(log[k].rec)
    ensures forall l :: k < l < |log| ==> log[l].hash != log[j].hash
  {
    var n := |log| - 1;
    if log[n].hash == log[j].hash { k := n; } else { k := FindHashLast(log[..n], j); }
  }

  /** A transaction included again in a later block: the earlier place then answers with
      the later record, which carries another height or index. */
  lemma {:induction false} RepeatedHash(log: seq<Save>, j: nat, k: nat)
    requires LastAtPlace(log, j) && j < k < |log| && log[k].hash == log[j].hash && log[k].rec.height != 0
    requires forall l :: k < l < |log| ==> log[l].hash != log[j].hash
    ensures LookupIndex(PutAll(map[], log), log[j].rec.height, log[j].rec.ethTxIndex) == Some(log[k].rec)
    ensures !SavedAt(log[k], log[j].rec.height, log[j].rec.ethTxIndex)
  {
    hide PutAll, LookupIndex, LookupHash, FindHash, FindIndex;
    FindIndexLast(log, j);
    var l := FindHashLast(log, j);
    LookupIndexSpec(log, log[j].rec.height, log[j].rec.ethTxIndex);
    LookupHashSpec(log, log[j].hash);
  }
}
