# haqq: verified models

Dafny models of five parts of the haqq node, with proofs about them.

1. **EVM transaction index.** The protobuf codec of index records (`Varint`, `Wire`,
   `Records`, `TxResultCodec`) and of the Web3 extension option (`Web3Codec`), down to the
   bytes; the key-value store with its two key families (`KvKeys`, `KvIndexer`, `KvRecords`,
   `KvScan`, `KvStore`); and every run of the service and of the two-direction index command
   (`IndexerRuns`, `IndexerFound`, `IndexerProgress`). Main results: decoding is exact on
   every byte string, messages are numbered in block order and the index answers with the
   very record of each, no run ever skips a height, and every known block is handed over
   once enough fetches succeed.
2. **EIP-712 schema builder.** A sign document is flattened (`Flatten`) and each message
   compiled into a table of named struct types (`TypeNames`, `TypeTable`, `Schema`,
   `SchemaSize`, `SchemaNames`). Main results: every object in every message matches the
   type its parent gives it and is named after its path, every name resolves, compiling
   again changes nothing, and up to 1000 objects always get a schema.
3. **Ledger wallets.** The locking protocol as a state machine over any number of threads
   and wallets (`WalletMachine`, `WalletLocks`), with the channel that ends a health check;
   what Open and Close leave behind (`WalletStates`), when operations go on and return
   (`WalletProgress`, `WalletExclusive`, `WalletFinish`) and how a Close is lost
   (`WalletLostClose`), and a signature step by step (`WalletSignature`); the packet
   framing of requests and replies (`LedgerFraming`), and what the driver makes of any
   stream (`LedgerReplies`).
4. **Allowances.** ERC-20 allowances kept as coin lists in authz grants (`Coins`, `Authz`,
   `Erc20Allowance`, `Erc20Precompile`) refine a ledger of numbers with its own expiry and
   clock (`Erc20Ledger`); ICS-20 allowances (`Ics20Allowance`) are edited in place by a
   loop that deletes while it ranges.
5. **Balance mirroring.** Bank movements of the liquid precompile become EVM journal
   entries (`BalanceMirror`); EVM and bank drift apart by exactly what is not mirrored.

Code that works on buffers, slices or fields is modelled by methods and classes, proved
against functions about which the lemmas speak. Failures are values (`None`, or an
outcome that names a panic); error texts are not modelled. Machine integers are
unbounded numbers with explicit wrap-around where the source's width matters. Databases,
the network, clocks, other goroutines' timing and calls into libraries appear as
parameters: which fetches and writes succeed, in which order steps interleave, what the
bank holds after a message.

Where code and its comments differ, the code is followed:

- `Approve` with amount 0 is documented to delete or to do nothing. When the pair has a
  grant without the token, the code refuses the call (`Erc20Allowance.ApproveSpec`,
  `Erc20Allowance.ApproveZeroRefused`).
- The indexing service logs a refused batch and goes on, so its block can stay unfound
  between two indexed ones (`IndexerFound.RefusedBatchIsLost`); `IndexerFound.FoundIffAccepted`
  says exactly when a message is found.
- A Close can wait for good (`WalletProgress.LostForever`): when another Close of the
  wallet overlaps it and is served by the only health check
  (`WalletLostClose.SecondCloseIsLost`), and, alone, when an Open overlaps it after a
  failed health check and replaces the channel it sends on
  (`WalletLostClose.OnlyCloseIsLost`). Callers that keep a Close of a wallet apart from
  every other Close and Open of it never lose one (`WalletExclusive.NoCloseIsLost`), and
  then every operation returns (`WalletFinish.EveryOperationReturns`).
- The driver panics on replies it does not expect; `LedgerFraming.PanicsExactly` says on
  which.
- The comment on mirroring promises EVM balances equal to the bank's. The liquid vesting
  module's own account is moved in the bank by every Liquidate and Redeem and mirrored only
  when the message names it; `BalanceMirror.MessagesMirrored` states the promise for all
  other accounts and the exact difference for this one.
- Decreasing an ICS-20 allowance deletes from the list it ranges over: the coin behind a
  deleted one is skipped, and with a repeated denomination the loop can panic
  (`Ics20Allowance.LoopLeaves`, `Ics20Allowance.PanicsExactly`).
- The driver documents at most ten path components; requests are in fact recovered up to
  63 for derivations and 47 for signatures, and rejected beyond
  (`LedgerFraming.DeriveRecovered`, `LedgerFraming.SignRecovered`).

## Model

| member | source | states |
|---|---|---|
| Varint.EncodeIsVarint | types/indexer.pb.go:172-182 | every 64-bit number is spelled in at most ten bytes whose seven-bit groups add up to it |
| Varint.SovIsLength | types/indexer.pb.go:213-215 | the bit-counting size formula is the length of the encoding |
| Varint.EncodeVarint | types/indexer.pb.go:172-182 | fills the bytes just before the offset with the encoding, returns where it starts, touches nothing in front |
| Varint.ReadVarint | types/indexer.pb.go:225-238 | the shift-and-or loop gives the value cut to the target's width, fails on an eleventh byte or the end of input |
| Varint.ReadUint64 | types/indexer.pb.go:225-238 | the same for 64-bit targets, modulo 2^64 |
| Varint.ReadUint32 | types/indexer.pb.go:272-285 | the same for 32-bit targets, modulo 2^32 |
| Varint.ReadSpelled | types/indexer.pb.go:225-238 | any spelling of at most ten bytes, minimal or not, reads as its value |
| Varint.ReadSound | types/indexer.pb.go:225-238 | whatever is read is such a spelling |
| Wire.SkipAfterTag | types/indexer.pb.go:423-474 | the switch on wire types, with 64-bit lengths that overflow or turn negative refused |
| Wire.Skip | types/indexer.pb.go:403-480 | terminates on every input and returns the end of one whole field, or fails or points past the input |
| Wire.SkipPrinted | types/indexer.pb.go:403-480 | every well-formed field, nested groups included, is passed over as a whole |
| Wire.SkipSound | types/web3.pb.go:317-394 | whatever is passed over is one well-formed field |
| Records.ParsePrinted | types/indexer.pb.go:219-402 | any run of fitting records, in any spelling, parses as their updates in order |
| Records.ParseSound | types/indexer.pb.go:219-402 | whatever parses is, to the last byte, a run of fitting records |
| TxResultCodec.SizeIsLength | types/indexer.pb.go:183-211 | Size is the length of the encoding |
| TxResultCodec.MarshalToSizedBuffer | types/indexer.pb.go:124-170 | fills the end of the buffer with the encoding, written backwards, and leaves the rest alone |
| TxResultCodec.Marshal | types/indexer.pb.go:109-117 | allocates Size bytes and fills exactly them |
| TxResultCodec.UnmarshalRecord | types/indexer.pb.go:222-396 | one turn of the loop makes the updates of one record and moves past it |
| TxResultCodec.Unmarshal | types/indexer.pb.go:219-402 | equals decoding onto the struct; all indices stay in range on every input |
| TxResultCodec.RoundTrip | types/indexer.pb.go:109-402 | every TxResult, negative heights and indices included, decodes from its encoding |
| TxResultCodec.EncodeEmpty | types/indexer.pb.go:124-170 | the encoding is empty exactly for the zero struct |
| TxResultCodec.DecodeExact | types/indexer.pb.go:219-402 | input is accepted exactly when it is a run of fitting records, all of it consumed |
| TxResultCodec.DecodeMerges | types/indexer.pb.go:219-402 | two valid inputs one after the other decode as the second on top of the first |
| TxResultCodec.DecodeSkipsUnknown | types/indexer.pb.go:382-395 | a well-formed unknown field between records changes nothing |
| TxResultCodec.EncodeFormat | types/indexer.pb.go:124-170 | the bytes: fields 1 to 7 in order behind the tags 0x08 to 0x38, zero fields left out, signed numbers as 64-bit two's complement |
| TxResultCodec.DecodeField | types/indexer.pb.go:252-381 | a single field with any 64-bit value sets the field of its number to the value cut to its width, and nothing else |
| Web3Codec.SizeIsLength | types/web3.pb.go:156-174 | Size is the length of the encoding |
| Web3Codec.MarshalToSizedBuffer | types/web3.pb.go:118-143 | fills the end of the buffer with the encoding |
| Web3Codec.Marshal | types/web3.pb.go:103-111 | allocates Size bytes and fills exactly them |
| Web3Codec.ReadBlob | types/web3.pb.go:230-295 | a length that is negative as a machine integer, wraps the cursor or leaves the input is refused; otherwise exactly that slice is copied |
| Web3Codec.Unmarshal | types/web3.pb.go:182-316 | equals decoding onto the struct; all indices and slices stay in range |
| Web3Codec.RoundTrip | types/web3.pb.go:103-316 | every extension option decodes from its encoding |
| Web3Codec.DecodeExact | types/web3.pb.go:182-316 | input is accepted exactly when it is a run of fitting records |
| Web3Codec.EncodeFormat | types/web3.pb.go:118-143 | the bytes: chain id, fee payer and signature in this order behind the tags 0x08, 0x12 and 0x1a, empty ones left out |
| Web3Codec.DecodeField | types/web3.pb.go:210-295 | a single field sets the field of its number and nothing else |
| KvKeys.KeyLayout | indexer/kv_indexer.go:162-171 | hash keys are 0x01 and the hash, index keys 0x02 and two 64-bit words, high byte first |
| KvKeys.KeyFamiliesDisjoint | indexer/kv_indexer.go:162-171 | hash keys and index keys never coincide |
| KvKeys.TxHashKeyInjective | indexer/kv_indexer.go:162-164 | hash keys determine the hash |
| KvKeys.TxIndexKeyInjective | indexer/kv_indexer.go:167-171 | index keys determine height and index |
| KvKeys.TxIndexKeyOrder | indexer/kv_indexer.go:167-171 | byte order on index keys is the order of the pairs, as unsigned words |
| KvKeys.ParseIndexKey | indexer/kv_indexer.go:224-231 | the height is read back from the key, whatever its sign |
| KvKeys.ScannedFamilies | indexer/kv_indexer.go:174-189 | the scanned range is exactly the keys that start with 0x02: index keys and no hash keys |
| KvIndexer.SavesShape | indexer/kv_indexer.go:55-114 | a block saves the Ethereum indices 0, 1, 2, ... in order at its own height |
| KvIndexer.SaveOrigin | indexer/kv_indexer.go:56-114 | each save records one message: hash, both indices, gas and failure |
| KvIndexer.MessageRecorded | indexer/kv_indexer.go:56-114 | each message of an Ethereum transaction that failed or has an event is saved |
| KvIndexer.CumulativeGas | indexer/kv_indexer.go:79-108 | cumulative gas is the running sum within the transaction, modulo 2^64 |
| KvRecords.MessageAtPlace | indexer/kv_indexer.go:55-114 | a message is saved under the number of indexed messages before it in block order, with every field of its record as the block gives it, and nothing else is saved |
| KvRecords.SavesInOrder | indexer/kv_indexer.go:56-114 | of two saves the earlier one records a message of an earlier transaction, or an earlier message of the same |
| KvRecords.LookupMessage | indexer/kv_indexer.go:150-159 | with distinct hashes, looking up a message's number in an indexed block returns that message's record |
| KvIndexer.StoreHash | indexer/kv_indexer.go:213-222 | under a hash the store holds the encoding of the record saved last |
| KvIndexer.StoreIndex | indexer/kv_indexer.go:213-222 | under a height and index it holds the hash saved last |
| KvIndexer.IndexResolves | indexer/kv_indexer.go:213-222 | every index entry points to a saved record |
| KvIndexer.LookupHashSpec | indexer/kv_indexer.go:134-147 | lookup by hash returns the record saved last; a saved hash is unfound exactly for the zero struct |
| KvIndexer.LookupIndexSpec | indexer/kv_indexer.go:150-159 | lookup by height and index goes through the hash saved last there |
| KvIndexer.LookupComplete | indexer/kv_indexer.go:49-159 | with distinct hashes, a height and index answers with the record of that very message when its block was indexed, and is not found otherwise |
| KvIndexer.Reindex | indexer/kv_indexer.go:49-121 | indexing a block again changes nothing exactly when, for each of its hashes, the record saved last is the one the block itself saves last |
| KvIndexer.ReindexDistinct | indexer/kv_indexer.go:49-121 | with distinct hashes it never changes anything, whatever was indexed since |
| KvIndexer.LookupOwnRecord | indexer/kv_indexer.go:150-159 | without that assumption, a place answers with its own record exactly when its hash was not saved again later |
| KvIndexer.RepeatedHash | indexer/kv_indexer.go:150-159 | when a hash is saved again later, the earlier place answers with the later record, which carries another height or index |
| KvScan.LastBlockSpec | indexer/kv_indexer.go:174-184 | the last indexed block is the greatest height saved, or -1 when nothing was |
| KvScan.FirstBlockSpec | indexer/kv_indexer.go:187-197 | the first indexed block is the least height saved, or -1 |
| KvStore.KVIndexer.IndexMessages | indexer/kv_indexer.go:79-114 | the inner loop collects the saves of the transaction and the next int32 index |
| KvStore.KVIndexer.IndexBlock | indexer/kv_indexer.go:49-121 | applies all saves of the block, or none when the batch is refused |
| KvStore.KVIndexer.LastIndexedBlock | indexer/kv_indexer.go:124-126 | reads the greatest scanned key |
| KvStore.KVIndexer.FirstIndexedBlock | indexer/kv_indexer.go:129-131 | reads the least scanned key |
| IndexerRuns.EndsSpec | indexer/kv_indexer.go:174-197 | on any history the two ends are the least and greatest stored heights, or both -1 |
| IndexerRuns.SessionStepKeeps | server/indexer_service.go:61-107 | each step of either goroutine keeps: nothing stored above lastBlock, and everything from a stored height up to it handed over |
| IndexerRuns.BackwardKeeps | server/indexer_cmd.go:83-96 | the backward loop leaves no gap, wherever an error ends it |
| IndexerRuns.ForwardKeeps | server/indexer_cmd.go:97-110 | the forward loop leaves no gap, wherever an error ends it |
| IndexerRuns.ActivityKeeps | server/indexer_service.go:76-108 | every activity, started from what it reads in the index, leaves no gap |
| IndexerRuns.NoGapInAnyRun | server/indexer_service.go:76-108 | after any sequence of sessions, backward and forward runs, every height from the first to the last indexed block was handed to IndexBlock |
| IndexerFound.WrittenIffAccepted | server/indexer_cmd.go:82-110 | a block is written by a run exactly when some activity reaches it past outcomes that do not stop it and meets an accepted batch there |
| IndexerFound.FoundIffAccepted | server/indexer_service.go:103-106 | with distinct hashes, after any run a message is found, as its own record, exactly when some activity had its block accepted |
| IndexerFound.CompleteIffAccepted | server/indexer_service.go:92-107 | the index is complete over its range exactly when every block of the range with an Ethereum transaction was accepted by some activity |
| IndexerFound.CompleteUnlessRefused | server/indexer_service.go:92-107 | while no batch is refused, the index is complete over its range |
| IndexerFound.RefusedBatchIsLost | server/indexer_service.go:103-106 | a run in which a refused block stays unfound between two indexed ones |
| IndexerRuns.IndexHeight | server/indexer_cmd.go:66-80 | a missing block is not handed over; otherwise the store changes by that block's batch |
| IndexerRuns.RunBackward | server/indexer_cmd.go:83-96 | the loop on the indexer object does what the backward activity says |
| IndexerRuns.RunForward | server/indexer_cmd.go:97-110 | the loop on the indexer object does what the forward activity says |
| IndexerRuns.RunService | server/indexer_service.go:46-108 | the service on the indexer object, under any interleaving, does what the session says |
| IndexerProgress.LatestSpec | server/indexer_service.go:61-74 | the latest height is the greatest of the one at the start and those of the headers that arrived |
| IndexerProgress.LastExactly | server/indexer_service.go:83-107 | under any interleaving the service's height is the greatest that the successful fetches allow, given what was known when; it waits for nothing else |
| IndexerProgress.HandedExactly | server/indexer_service.go:92-107 | a session hands over exactly the heights between where it starts and where it stands |
| IndexerProgress.KnownBlockIsHanded | server/indexer_service.go:92-107 | a known block is handed over after as many successful fetches as it is ahead, whatever else happens among them |
| IndexerProgress.HeaderIsHanded | server/indexer_service.go:61-107 | so is a new block, after its header and enough fetches, whatever happens before |
| IndexerProgress.BackwardOnEmpty | server/indexer_cmd.go:83-96 | on an empty index the backward run writes from the height below the store's down to 1, as far as batches are accepted |
| IndexerProgress.ForwardOnEmpty | server/indexer_cmd.go:97-110 | on an empty index the forward run writes from 1 up to the store's height, as far as batches are accepted |
| IndexerProgress.ServiceOnEmpty | server/indexer_service.go:76-82 | on an empty index the service never hands over a block up to the latest one at its start |
| IndexerProgress.GoesOnFromEnds | server/indexer_cmd.go:83-110 | otherwise backward goes on below the least stored height and forward above the greatest |
| IndexerProgress.ServiceGoesOn | server/indexer_service.go:76-107 | and the service hands over exactly the reachable heights above the greatest stored one |
| Json.SortedJSONKeys | ethereum/eip712/types.go:223-243 | the keys in strictly descending order, whatever order the map yields |
| TypeNames.SanitizeTypedef | ethereum/eip712/types.go:337-355 | the buffer holds the parts, title-cased and joined |
| TypeNames.SanitizeShape | ethereum/eip712/types.go:337-355 | no separator is left, and a prefix becomes a name that starts with Type |
| TypeNames.SanitizeFixesNames | ethereum/eip712/types.go:207-212 | a sanitised prefix with a decimal suffix is a fixed point, so the recorded name is the stored key |
| TypeNames.PathName | ethereum/eip712/types.go:337-355 | the name of a path is Type and the names of its fields one after the other |
| TypeNames.CamelWords | ethereum/eip712/types.go:349-352 | the name of a field is its words between underscores, each titled |
| TypeNames.TitleSpec | ethereum/eip712/types.go:351 | titling puts the first letter into upper case and changes nothing else |
| TypeNames.UpperSpec | ethereum/eip712/types.go:339 | upper case is the same letter of the other alphabet |
| TypeNames.DecValue | ethereum/eip712/types.go:311-313 | the suffix spells its number in decimal without leading zeros |
| TypeTable.AddTypesSpec | ethereum/eip712/types.go:277-307 | never overwrites, binds the returned key to exactly the requested definition, touches no other key, takes the first of 1000 candidates that is free or holds the same, and fails exactly when all hold other definitions |
| TypeTable.ProbeStable | ethereum/eip712/types.go:277-307 | adding the same again to a grown table finds the same key, although names and indices may run together |
| TypeTable.CompileSound | ethereum/eip712/types.go:142-219 | the compiled object, with all objects inside it, matches the definition under the returned key, and a closed table stays closed |
| TypeTable.CompileStable | ethereum/eip712/types.go:142-219 | compiling again on any grown table returns the same key and changes nothing |
| Flatten.FlattenPayloadMessages | ethereum/eip712/message.go:69-91 | the loop computes the flattened payload |
| Flatten.MsgFieldNumber | ethereum/eip712/message.go:138-140 | the field of message i is msg and i in decimal |
| Flatten.FlattenedSpec | ethereum/eip712/message.go:69-151 | succeeds exactly when msgs is null or a list, every message is an object and no target field is taken; moves each message to its field and keeps all others |
| Flatten.FlattenInvertible | ethereum/eip712/message.go:69-151 | the original payload is rebuilt from the flattened one |
| Schema.SchemaSound | ethereum/eip712/types.go:76-86 | every schema that is built types each message and all objects in it, resolves every name, keeps the four fixed types and is a fixed point of compiling any message again |
| Schema.SelectedSpec | ethereum/eip712/types.go:158-216 | a struct lists exactly the representable fields, each once, in descending order |
| Schema.DocumentTyped | ethereum/eip712/message.go:69-91 | each message of the original document conforms to the type Tx gives it |
| SchemaNames.RootTypeNamed | ethereum/eip712/types.go:114-127 | the root type is Type and what stands behind the last slash of the type string, or all of it |
| SchemaNames.CompileNamed | ethereum/eip712/types.go:142-219 | the type of an object is named after its path, and so are those of the objects inside it, each with a number below 1000 |
| SchemaNames.SchemaNamed | ethereum/eip712/types.go:90-136 | in every schema each message's type is named after its root type and the inner types after their paths |
| SchemaNames.DocumentListed | ethereum/eip712/types.go:34-74 | the flattened sign document has every field Tx lists, with all its type asks for, and Tx lists every field of a document that has no others |
| SchemaSize.RoomToAdd | ethereum/eip712/types.go:297-301 | fewer than 1000 generated names leave room for any definition |
| SchemaSize.CompileFits | ethereum/eip712/types.go:142-219 | compiling succeeds while there is room for all objects reached, and uses no more |
| SchemaSize.CreateSucceeds | ethereum/eip712/types.go:76-86 | with at most 1000 objects a schema is built exactly when every message is there, is an object and names its type |
| Schema.TypesAreEqual | ethereum/eip712/types.go:319-331 | holds exactly for equal definitions |
| Schema.Builder.AddTypesToRoot | ethereum/eip712/types.go:277-307 | the probing loop ends within 1000 rounds and changes the map as specified |
| Schema.Builder.RecursivelyAddTypesToRoot | ethereum/eip712/types.go:142-219 | the recursion fills the map in place as compilation does |
| Schema.Builder.AddMsgTypesToRoot | ethereum/eip712/types.go:90-136 | compiles a message and appends its line to Tx |
| Schema.CreateEIP712Types | ethereum/eip712/types.go:34-86 | builds the specified schema |
| WalletMachine.MovesTrack | ledger/usbwallet/wallet.go:128-377 | along the program text, what a thread holds changes exactly as each lock operation says |
| WalletLocks.NextKeeps | ledger/usbwallet/wallet.go:128-377 | every step of every thread, and every step two threads make together, keeps all invariants |
| WalletLocks.RunInv | ledger/usbwallet/wallet.go:128-377 | they hold in every state of every interleaving |
| WalletLocks.OneExchange | ledger/usbwallet/wallet.go:147-194 | at most one thread is in a driver exchange with a wallet |
| WalletLocks.DeviceStays | ledger/usbwallet/wallet.go:239-251 | during an exchange the device is there, and no step closes or replaces it |
| WalletLocks.NoEnumerationDuringSignature | ledger/usbwallet/hub.go:150-186 | the counter is the number of pending signatures, and no enumeration overlaps one |
| WalletSignature.SignatureRun | ledger/usbwallet/hub.go:150-186 | a run in which an enumeration meets a pending signature and backs off, the signature completes and the enumeration goes through |
| WalletLocks.GiveBackNeverWaits | ledger/usbwallet/wallet.go:357-358 | the channel is empty whenever a thread returns the token |
| WalletStates.OpenWallet | ledger/usbwallet/wallet.go:128-160 | the driver is opened on connected wallets that are not open yet, and an open wallet nobody is changing has its device and a health channel |
| WalletStates.ClosedWallet | ledger/usbwallet/wallet.go:220-251 | a Close, or a failed health check, gives the lock back with the device gone and the wallet not open; a Close also without health channel |
| WalletProgress.CloseGoesOn | ledger/usbwallet/wallet.go:212-218 | a Close whose message was taken always gets its answer; one that still sends waits for a health check to listen on its channel |
| WalletProgress.LostForever | ledger/usbwallet/wallet.go:206-218 | when no health check listens on that channel or can still look it up, the Close never moves again |
| WalletProgress.NoDeadlock | ledger/usbwallet/wallet.go:128-377 | while an operation other than a lost Close is under way, some such operation can take its next step, although a waiting writer holds new readers back |
| WalletExclusive.RunServed | ledger/usbwallet/wallet.go:128-233 | while no Close of a wallet overlaps another Close or an Open of it, a wallet with a health channel has a health check or a Close that just ended it, and a Close sends on the current channel |
| WalletExclusive.NoCloseIsLost | ledger/usbwallet/wallet.go:206-233 | while no Close of a wallet overlaps another Close or an Open of it, every Close that sends can be served |
| WalletLostClose.SecondCloseIsLost | ledger/usbwallet/wallet.go:206-233 | a run in which two Close calls overlap, and no Open does, that ends with the second one lost and nothing else under way |
| WalletLostClose.OnlyCloseIsLost | ledger/usbwallet/wallet.go:128-233 | a run with never more than one Close, overlapped by an Open after a failed health check, that ends with the Close lost although health checks run |
| WalletFinish.QuietLess | ledger/usbwallet/wallet.go:128-377 | every step of an operation under way leaves less to do, whichever thread makes it |
| WalletFinish.SchedulesEnd | ledger/usbwallet/wallet.go:128-377 | no schedule goes on for ever without a new call or the timer of a health check at rest |
| WalletFinish.WindsDown | ledger/usbwallet/wallet.go:128-377 | every run can be continued, beginning nothing, to where nothing more can happen |
| WalletFinish.EndIsSettled | ledger/usbwallet/wallet.go:128-377 | there every thread is idle, a health check at rest or a lost Close |
| WalletFinish.EveryOperationReturns | ledger/usbwallet/wallet.go:128-377 | when no Close overlapped another Close or an Open of its wallet and nothing new begins, every schedule ends with all operations returned, each Close included |
| LedgerFraming.PacketsShape | ledger/usbwallet/ledger.go:395-416 | packets start with channel 0x0101, tag 0x05 and their number, high byte first, in order, and hold 64 bytes, the last perhaps fewer |
| LedgerFraming.PacketsCount | ledger/usbwallet/ledger.go:399-416 | as many as 59-byte payloads are needed |
| LedgerFraming.PacketsCarry | ledger/usbwallet/ledger.go:399-416 | without headers they add up to the APDU |
| LedgerFraming.RequestRecovered | ledger/usbwallet/ledger.go:385-416 | the device recovers opcode, parameters and data exactly when the data has fewer than 256 bytes |
| LedgerFraming.DeriveRecovered | ledger/usbwallet/ledger.go:228-237 | opcode 2 and the path are recovered from the packets exactly up to 63 components |
| LedgerFraming.SignRecovered | ledger/usbwallet/ledger.go:314-335 | opcode 12, path and both hashes, in order, exactly up to 47 components |
| LedgerFraming.ReplyRead | ledger/usbwallet/ledger.go:417-448 | every framed reply of 2 to 65535 bytes is read without its status bytes from exactly the packets it fills, whatever the padding |
| LedgerFraming.PanicsExactly | ledger/usbwallet/ledger.go:417-448 | on any stream the driver panics exactly when the first packet is readable but not number 0, or some packet met while the reply is incomplete is number 0 and announces fewer than two bytes |
| LedgerReplies.GivesUpExactly | ledger/usbwallet/ledger.go:417-448 | reading fails exactly when the stream ends while the reply is incomplete, and is refused exactly when a packet met then lacks channel or tag |
| LedgerReplies.ReplySound | ledger/usbwallet/ledger.go:417-448 | whatever is returned is what the packets since the last number 0 carry, cut to the length announced there less the status bytes |
| LedgerFraming.Device.Send | ledger/usbwallet/ledger.go:385-416 | writes exactly these packets, or those before the write that fails |
| LedgerFraming.Device.Receive | ledger/usbwallet/ledger.go:417-448 | the reading loop, with its reuse of the buffer, does what the reader function says |
| LedgerFraming.Device.Exchange | ledger/usbwallet/ledger.go:385-449 | request out, then reply in |
| LedgerFraming.FlattenPath | ledger/usbwallet/ledger.go:229-234 | the buffer filled in place is the component count and the big-endian components |
| Coins.AddSpec | precompiles/erc20/types.go:155-157 | adding a coin keeps the list sorted and positive |
| Coins.AddAmount | precompiles/erc20/types.go:155-157 | and raises the amount of that denomination only |
| Erc20Allowance.UpdateOrAddSpec | precompiles/erc20/types.go:147-158 | sets one amount, keeps the others and the order |
| Erc20Allowance.CreateChanges | precompiles/erc20/approve.go:224-239 | a new grant changes one allowance of the pair and expires at the block time plus the lifetime |
| Erc20Allowance.UpdateChanges | precompiles/erc20/approve.go:241-248 | an update changes one allowance, keeps the expiration, and fails exactly for a grant that is just expiring |
| Erc20Allowance.RemoveChanges | precompiles/erc20/approve.go:253-278 | removal zeroes one allowance, deletes the grant exactly when nothing is left and keeps its expiration otherwise, and fails exactly as stated |
| Erc20Allowance.ApproveSpec | precompiles/erc20/approve.go:36-92 | exact success condition; success sets one allowance and no other, with the expiration a first, last or further allowance calls for |
| Erc20Allowance.ApproveZeroRefused | precompiles/erc20/approve.go:69-71 | with only another token approved, approving 0 is refused |
| Erc20Allowance.IncreaseSpec | precompiles/erc20/approve.go:103-151 | succeeds exactly for a positive value whose sum fits 256 bits, unless the grant is just expiring; adds to one allowance |
| Erc20Allowance.DecreaseSpec | precompiles/erc20/approve.go:165-222 | succeeds exactly for a positive value up to the allowance, unless a grant that must be kept is just expiring; takes from one allowance |
| Erc20Allowance.RunValid | precompiles/erc20/approve.go:36-334 | over any calls and any passing of time every spend limit stays non-empty, strictly sorted and positive |
| Erc20Allowance.TimePasses | precompiles/erc20/query.go:196-232 | time only takes whole grants away; an account's own allowance is always 2^256 - 1 |
| Erc20Ledger.CallRefines | precompiles/erc20/approve.go:36-334 | a call succeeds on the grants exactly when it does on the ledger, with the same effect on numbers and expiries |
| Erc20Ledger.PassesRefine | precompiles/erc20/query.go:212-232 | as time passes the store forgets a pair exactly when the ledger's expiry is over |
| Erc20Ledger.StoreRefinesLedger | precompiles/erc20/approve.go:36-334 | over any sequence of calls, with any time between them, the grant store refines the ledger, which runs on its own numbers, expiries and clock |
| Erc20Ledger.FreshStore | precompiles/erc20/query.go:182-208 | an empty store refines the empty ledger |
| Erc20Precompile.UpdateOrAddCoin | precompiles/erc20/types.go:147-158 | the loop overwrites the first coin of the denomination or adds the coin |
| Erc20Precompile.Precompile.UpdateAuthorization | precompiles/erc20/approve.go:241-248 | the store becomes the updated one, or stays when saving fails |
| Erc20Precompile.Precompile.RemoveSpendLimitOrDeleteAuthorization | precompiles/erc20/approve.go:253-278 | the store loses the coin or the grant, or stays |
| Erc20Precompile.Precompile.Approve | precompiles/erc20/approve.go:36-92 | the cases in order give the specified store; a failure leaves it |
| Erc20Precompile.Precompile.IncreaseAllowance | precompiles/erc20/approve.go:103-151 | the same for increases, overflow included |
| Erc20Precompile.Precompile.DecreaseAllowance | precompiles/erc20/approve.go:165-222 | the same for decreases |
| Ics20Allowance.CheckAllocationExists | precompiles/ics20/types.go:337-355 | the first allocation of the port and channel decides, even when it lacks the denomination |
| Ics20Allowance.DeleteAt | precompiles/ics20/approve_common.go:199-201 | the append shifts the tail down in the shared array and leaves the old last element |
| Ics20Allowance.LowerInPlace | precompiles/ics20/approve_common.go:191-205 | the range loop over the old slice, with deletions and panics, does what the loop function says |
| Ics20Allowance.LoopLowers | precompiles/ics20/approve_common.go:191-205 | with the denomination listed once the loop lowers its coin, drops it exactly at zero, keeps the rest in order and never panics |
| Ics20Allowance.PanicsExactly | precompiles/ics20/approve_common.go:191-205 | the loop panics exactly when the last coin has the denomination and an earlier coin of it is used up, so never for a denomination listed once |
| Ics20Allowance.LoopLeaves | precompiles/ics20/approve_common.go:191-205 | on any coin list without a panic every coin of the denomination is lowered, or dropped when used up, but the coin behind a dropped one is skipped |
| Ics20Allowance.IncreaseSpec | precompiles/ics20/approve_common.go:104-155 | exact success condition; adds to one coin of the first matching allocation and changes nothing else |
| Ics20Allowance.DecreaseSpec | precompiles/ics20/approve_common.go:158-222 | exact success condition; takes from one coin of the first matching allocation and changes nothing else |
| Ics20Allowance.DecreaseUndoesIncrease | precompiles/ics20/approve_common.go:104-222 | decreasing by what was just added restores the whole store |
| Ics20Allowance.TransferGrants.Increase | precompiles/ics20/approve_common.go:104-155 | the store becomes the increased one, or stays |
| Ics20Allowance.TransferGrants.Decrease | precompiles/ics20/approve_common.go:158-222 | the store becomes the decreased one, or stays |
| BalanceMirror.MirrorExact | precompiles/liquid/tx.go:59-88 | replaying the entries gives each sampled account its bank balance, with at most one entry each, and leaves the others alone |
| BalanceMirror.MirrorNeverNegative | precompiles/common/precompile.go:197-207 | no balance is negative after any prefix of the entries |
| BalanceMirror.CallMirrors | precompiles/liquid/tx.go:59-88 | any call changes the EVM balance of an account by exactly what it moved there in the bank if the account is mirrored, and not at all otherwise |
| BalanceMirror.MessageMoves | x/liquidvesting/keeper/keeper.go:317-320 | a message goes through exactly when the payer has the coins and nothing else fails; Liquidate pays the module, Redeem the receiver, nobody else is touched, and from a contract the EVM follows on the named accounts |
| BalanceMirror.MessageDrift | precompiles/liquid/tx.go:160-180 | a Liquidate or Redeem from a contract, whomever it names, leaves the difference of EVM and bank as it was on every account, save that the module's own account is behind by what is paid in while it is not named |
| BalanceMirror.SelfRedeemOnce | precompiles/liquid/tx.go:276-295 | a self-redeem, sampled twice, leads to exactly one entry of the redeemed amount |
| BalanceMirror.DriftOfRun | precompiles/liquid/liquid.go:74-114 | over any sequence of calls, failing ones included, EVM and bank drift apart on an account by exactly what was moved there unmirrored |
| BalanceMirror.StaysSynced | precompiles/liquid/liquid.go:74-114 | an account on which they agree stays so while every call mirrors it or leaves it alone in the bank |
| BalanceMirror.MessagesMirrored | x/liquidvesting/keeper/keeper.go:169-173 | over any sequence of Liquidate and Redeem from contracts they keep agreeing on every account but the module's own, where the bank moves ahead by what was liquidated and not redeemed, messages naming that account itself not counted |
| BalanceMirror.Precompile.MirrorBankBaseDeltasIntoStateDB | precompiles/liquid/tx.go:59-88 | the loop with its set of seen accounts appends exactly the mirrored entries |
| BalanceMirror.Precompile.AddJournalEntries | precompiles/common/precompile.go:197-207 | the loop replays the entries in order |
| BalanceMirror.Precompile.Run | precompiles/liquid/liquid.go:74-114 | runs on a copy, so the precompile itself keeps no entry; a failure leaves bank and EVM as they were |

## Left out

- IndexerRuns: the chain does not change and a block's result carries the block's height; a block holds at most 2^31 Ethereum messages; only one activity uses the database at a time.
- IndexerRuns.RunService: reads and writes of the shared latest height are single steps; waiting for the next signal is not modelled.
- KvIndexer: whether a transaction decodes, is an Ethereum one and has parseable events is an input; the mismatch warnings for event indices are not modelled.
- Flatten: JSON objects are finite maps with identifier keys, so path syntax in keys and duplicate keys do not arise.
- TypeNames: title-casing upper-cases the first ASCII letter of each part; other Unicode casing is not modelled.
- WalletFinish.EveryOperationReturns: speaks of schedules in which nothing new begins; how long an operation waits while ever new calls begin is not bounded.
- WalletExclusive.NoCloseIsLost: gives a condition that is enough. An overlap need not lose a Close: an Open of a wallet that is open changes nothing.
- WalletMachine: the health check reads the health channel without a lock; the read is a single step here. Threads waiting to begin an operation are idle, and when a writer leaves, either the readers or the next writer may come first.
- WalletMachine: pinning a derived account, listing accounts and merging the device list take the state lock only and exchange nothing.
- WalletLocks.NoEnumerationDuringSignature: speaks of Linux, where the guard exists.
- LedgerFraming: the cryptographic content of replies (public keys, signatures) is not interpreted.
- Authz: the keeper is a map with expiry; that a grant is found until its expiration has passed, and only saved with a later one, is assumed of it, as are Find, Add and SafeSub of sorted coin lists.
- Erc20Allowance: new grants have a positive lifetime, stored grants are of the expected type, amounts are uint256; transfers spending an allowance and event emission are not modelled.
- Ics20Allowance.LoopLowers: asks for the denomination to be listed once. Grants made through the precompile are validated first (precompiles/ics20/types.go:95-98), and valid coin lists have no repeated denomination; Ics20Allowance.LoopLeaves speaks of all lists.
- Ics20Allowance: approving, revoking and accepting transfer grants, and the keeper's channel checks.
- BalanceMirror.MessagesMirrored: speaks of calls from contracts; when caller and origin are the same account nothing is mirrored, the difference is the one BalanceMirror.DriftOfRun gives, and the EVM's own commit is outside this model.
- BalanceMirror: of the liquid vesting messages only the base-coin transfer is modelled; whether everything else in them succeeds is an input. A failing precompile registration after the replay is left to the EVM's own revert.
- Other protobuf messages of the repository repeat the same generated pattern.
- The application wiring, command line, RPC servers, keepers and gas tables.
