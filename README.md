# utreexo-py core, modelled in Dafny

This project models the parts of utreexo-py that a compact-state node (CSN)
uses for one block:

- the leaf record `LeafData`, with its byte encoding and leaf hash;
- the per-block Utreexo data `UData`, with its stream encoding and its
  compact encoding;
- `dedupe_block`, which finds the outputs that are created and spent in the
  same block;
- the lists of deleted outpoints and added leaves that follow from it;
- the proof check of a `UBlock`;
- the UTXO view of a `UBlock`;
- the initial-block-download loop of the CSN, which checks each block and
  scans it for the wallet's addresses;
- the watch lists of the wallet-facing CSN object.

Each file is one Dafny module:

| file | module | models |
|---|---|---|
| common.dfy | `Common` | errors, results, and the `Written` outcome of a sequence of stream writes that may raise partway |
| bytes.dfy | `Bytes` | the big-endian `struct` formats (`>H`, `>I`, `>i`, `>q`), reads from a stream, hex and decimal text |
| hashes.dfy | `Hashes` | the 32-byte `Hash` and its reversed-hex display |
| btcacc.dfy | `Btcacc` | btcacc/btcacc.py: `LeafData` |
| chain.dfy | `Chain` | the btcd block as the core sees it: transactions, inputs, outputs, and outputs numbered across the block |
| sorting.dfy | `Sorting` | the in-place `list.sort()` call in `dedupe_block` |
| util.dfy | `Util` | util/utils.py |
| udata.dfy | `Udata` | btcacc/udata.py |
| umsgblock.dfy | `UMsgBlock` | wire/umsgblock.py |
| idb.dfy | `Idb` | csn/idb.py, as a class whose methods update its fields |
| hook.dfy | `Hook` | csn/hook.py, as a class whose watch dictionaries are `map` fields |
| chainutils.dfy | `ChainUtils` | utils/utils.py, plus the genesis table that util/utils.py shares with it |

Python exceptions are modelled as error values:

- `Result` is `Ok(value)` or `Err(error)`.
- A run of writes to a stream is a `Written(bytes, failure)`. It records the
  bytes that reached the stream before any exception, and the exception
  itself if there was one.
- `Then` chains two runs of writes the way consecutive statements do.

The hash function, the batch-proof codec and the accumulator's `prove_batch`
are parameters of the model. `ProofCodec` pairs an encoder with a decoder,
and `Sound` says that the two invert each other.

## Model

| member | source | states |
|---|---|---|
| Common.Then | btcacc/btcacc.py:59-70 | the writes after a raising statement never happen: the bytes of a failed first run are the whole output, otherwise the two outputs are concatenated |
| Common.Reverse | utils/utils.py:65-68 | `txid[::-1]` has the same length, and element i is element n-1-i of the input |
| Bytes.FromToBE | btcacc/btcacc.py:60-64 | any value in range, written big-endian in w bytes, reads back as the same value |
| Bytes.ToFromBE | util/utils.py:138-141 | any w bytes read big-endian and written back give the same bytes |
| Bytes.SignedRoundTrip | btcacc/btcacc.py:63-64 | a two's-complement big-endian field (`>i`, `>q`) reads back as the value written |
| Bytes.PackU16 | btcacc/btcacc.py:69 | `pack('>H')` succeeds exactly when the value is in 0..65535, and raises struct.error otherwise |
| Bytes.PackU32 | btcacc/btcacc.py:62 | `pack('>I')` succeeds exactly when the value is in 0..2^32-1, and raises otherwise |
| Bytes.PackI32 | btcacc/btcacc.py:63 | `pack('>i')` succeeds exactly when the value is in -2^31..2^31-1, and raises otherwise |
| Bytes.PackI64 | btcacc/btcacc.py:64 | `pack('>q')` succeeds exactly when the value is in -2^63..2^63-1, and raises otherwise |
| Bytes.Read | btcacc/btcacc.py:80-86 | `read(n)` returns at most n bytes, all that is left when fewer remain, and the returned bytes followed by the rest are the input |
| Bytes.UnpackUnsigned | btcacc/btcacc.py:82 | `unpack` of a short read raises; otherwise the value is the big-endian number of the first w bytes and the stream moves past them |
| Bytes.UnpackSigned | btcacc/btcacc.py:85-86 | a signed field is the two's-complement reading of its w bytes, and a short read raises |
| Bytes.U16RoundTrip | btcacc/btcacc.py:89 | a `>H` field written and then read gives back the value and leaves what follows untouched |
| Bytes.U32RoundTrip | btcacc/btcacc.py:82 | the same for `>I` |
| Bytes.I32RoundTrip | btcacc/btcacc.py:85 | the same for `>i` |
| Bytes.I64RoundTrip | btcacc/btcacc.py:86 | the same for `>q` |
| Bytes.Hex | btcacc/btcacc.py:19 | `.hex()` gives two characters per byte |
| Bytes.HexAt | btcacc/btcacc.py:19 | characters 2i and 2i+1 of `.hex()` are the high and low nibble of byte i |
| Bytes.UnHexHex | btcacc/btcacc.py:19 | hex text parses back to the bytes it came from |
| Bytes.DecimalRoundTrip | btcacc/btcacc.py:50 | the decimal text of an integer, negative ones included, parses back to that integer |
| Hashes.MakeHash | btcacc/btcacc.py:11-14 | constructing a Hash succeeds exactly on 32 bytes, keeps them, and raises ValueError on any other length; the copies of `Hash` in util/utils.py and utils/utils.py make the same check |
| Hashes.HashString | btcacc/btcacc.py:16-19 | the display is 64 hex characters |
| Hashes.HashStringAt | btcacc/btcacc.py:16-19 | characters 2i and 2i+1 of the display are the hex digits of byte 31-i: the display is in reversed byte order |
| Hashes.HashStringRoundTrip | btcacc/btcacc.py:16-19 | the display parses back to the hash |
| Hashes.HashStringInjective | btcacc/btcacc.py:16-19 | two hashes with the same display are equal |
| Btcacc.HeightPackingRoundTrip | btcacc/btcacc.py:99-100 | the height and coinbase flag packed into `height << 1 \| coinbase` unpack to the same height and flag |
| Btcacc.Serialize | btcacc/btcacc.py:52-70 | `serialize` completes exactly when index, packed height, amount and script length fit their formats; ScriptTooLong is raised exactly when only the script is over 10000 bytes; the block hash and tx hash reach the stream first, even when a later field raises |
| Btcacc.SerializeSize | btcacc/btcacc.py:72-76 | `serialize_size()` equals the number of bytes a complete serialization of a record with a 32-byte block hash writes |
| Btcacc.SerializeLayout | btcacc/btcacc.py:52-70 | serialization completes exactly when every numeric field fits its format; the output is block hash, tx hash, index, packed height, amount, script length, script, with each field at its fixed offset |
| Btcacc.SerializeOversized | btcacc/btcacc.py:66-67 | a script over 10000 bytes raises ScriptTooLong after the 80 fixed bytes are already written |
| Btcacc.SerializedLength | btcacc/btcacc.py:72-76 | `serialize_size` (82 plus the script length) is the length of a complete serialization |
| Btcacc.DeserializeFrom | btcacc/btcacc.py:78-100 | after a well-formed 80-byte header and script length, a length over 10000 raises with the hashes, index and amount already stored and height, flag and script untouched; otherwise height and flag are unpacked, the script is the next (at most) length bytes, and the rest is left unread |
| Btcacc.Deserialize | btcacc/btcacc.py:78-100 | `deserialize` leaves a suffix of the stream unread; when it does not raise, it has consumed exactly the `serialize_size()` of the record it built, that record's script is within 10000 bytes, and its block hash is the stream's first 32 bytes |
| Btcacc.RoundTrip | btcacc/btcacc.py:78-100 | deserializing a complete serialization, followed by any bytes, restores every field of the record and leaves those bytes unread |
| Btcacc.DeserializeOversized | btcacc/btcacc.py:89-94 | an oversized script length raises after the fields read before it are already stored in the target record |
| Btcacc.DeserializeShortScript | btcacc/btcacc.py:96 | a stream that ends inside the script is not an error: the script is shorter than its stated length |
| Btcacc.DeserializeTruncatedHash | btcacc/btcacc.py:80-81 | a stream that ends inside a hash field raises BadHashLength |
| Btcacc.OpStringRoundTrip | btcacc/btcacc.py:48-50 | `"<txid>:<index>"` parses back to the outpoint's hash and index |
| Btcacc.OpString | btcacc/btcacc.py:48-50 | `op_string()` is the 64-character display of the tx hash, a colon at position 64, then at least one character of index |
| Btcacc.LeafHash | btcacc/btcacc.py:102-106 | the leaf hash exists exactly when every field fits its format; it is then the digest of exactly the bytes `serialize` writes, and otherwise `serialize`'s exception |
| Btcacc.LeafHashCollision | btcacc/btcacc.py:102-106 | two distinct encodable records have different serializations, so equal leaf hashes for them are a collision of the digest itself |
| Chain.OutputsOf | util/utils.py:107-118 | output i of transaction t is numbered with tx position t, output index i, and that output |
| Chain.InputsSlice | util/utils.py:92-104 | the inputs of transaction t occupy the slice of the block-wide input list starting after those of the earlier transactions |
| Chain.AllOutputsDistinct | util/utils.py:116-118 | in a block whose txids are distinct, the outpoints of the block's outputs are distinct |
| Sorting.Sort | util/utils.py:125 | `inskip.sort()` leaves the list sorted and a permutation of what it held |
| Sorting.SortMembers | util/utils.py:125 | sorting neither adds nor drops any value |
| Sorting.SortKeepsNoDuplicates | util/utils.py:125 | a list without duplicates sorts to a strictly increasing list |
| Util.IndexMapSpec | util/utils.py:100-104 | an outpoint is in the input map exactly when some non-coinbase input spends it, and then its value is the last such input's number |
| Util.NumberInputs | util/utils.py:92-106 | the loop over inputs counts all inputs, builds the input map of the non-coinbase inputs, and starts the input skip list as [0] |
| Util.ScanTxOutputs | util/utils.py:112-122 | the loop over one transaction's outputs extends both skip lists exactly as the block-wide definition does for those outputs |
| Util.ScanOutputs | util/utils.py:107-124 | the loop over all outputs counts them and returns the in-block spends' input numbers and the output numbers to skip |
| Util.DedupeBlock | util/utils.py:87-127 | the result is the input count, the output count, the input skip list sorted, and the output skip list |
| Util.OutSkipOfShape | util/utils.py:107-124 | the output skip list is strictly increasing and holds only output numbers of the block |
| Util.OutSkipOfComplete | util/utils.py:113-121 | every output spent in the same block is on the output skip list |
| Util.InSkipAddsMembers | util/utils.py:118-121 | a number is added to the input skip list exactly when it is the input number of an in-block spend of some output |
| Util.InSkipOfMembers | util/utils.py:118-125 | the sorted input skip list is sorted and holds exactly 0 and the input numbers of the in-block spends |
| Util.OutSkipSpec | util/utils.py:107-124 | output k is on the output skip list exactly when it is unspendable or some non-coinbase input of the block spends it; the list is strictly increasing and holds only output numbers |
| Util.IsUnspendable | util/utils.py:168-174 | an output counted as spendable has a script of at most 10000 bytes, so it fits a `LeafData`, and a non-empty script of it does not start with OP_RETURN |
| Util.InSkipSpec | util/utils.py:97-125 | the input skip list is sorted and holds 0, and every other number on it is the input number of an in-block spend of an output |
| Util.InSkipComplete | util/utils.py:118-121 | the input that spends an in-block output has its number on the input skip list |
| Util.InSkipBounds | util/utils.py:102-121 | every number on the input skip list other than the seeded 0 is the number of a non-coinbase input, and that input spends an output of the same block |
| Util.IndexMapInjective | util/utils.py:100-104 | two outpoints of the input map never share an input number |
| Util.InSkipAddsDistinct | util/utils.py:118-120 | with distinct outpoints the unsorted input skip list has no duplicates |
| Util.InSkipStrict | util/utils.py:97-125 | for a block whose coinbase has an input and whose txids are distinct, as in every valid block, the input skip list has no duplicates and is strictly increasing |
| Util.ConsumeTxInputs | util/utils.py:76-83 | the loop over one transaction's inputs drops the heads of the skip list it meets and appends every other input, as the block-wide definition does |
| Util.BlockToDelOps | util/utils.py:67-85 | the loop returns exactly the deleted outpoints of the block |
| Util.UnskippedMembers | util/utils.py:75-83 | an outpoint is deleted exactly when some input from the current position on spends it and is not on the skip list |
| Util.ConsumeUnskipped | util/utils.py:77-80 | with a strictly increasing skip list, consuming inputs drops exactly the skipped input numbers |
| Util.DelOpsSpec | util/utils.py:67-85 | for a block whose coinbase has an input and whose txids are distinct, as in every valid block, the deleted outpoints are the block's inputs, in order, whose numbers are not on the input skip list; every such input is deleted |
| Util.SameBlockSpendNotDeleted | util/utils.py:67-127 | for a block whose coinbase has an input and whose txids are distinct, as in every valid block, a spendable output created in the block and spent by exactly one non-coinbase input of it is not among the deleted outpoints, and it is on the output skip list |
| Util.CoinbaseOnlyBlock | util/utils.py:67-85 | a block holding only a coinbase with one input deletes nothing |
| Util.PrefixLen16 | util/utils.py:129-131 | the prefix succeeds exactly when the length is below 65536, and its two bytes are the length big-endian |
| Util.PopPrefixLen16 | util/utils.py:133-144 | fewer than 2 bytes, or a length beyond the end, raises; otherwise the body and the rest together make the input |
| Util.PrefixRoundTrip | util/utils.py:129-144 | popping the prefix restores the bytes and whatever followed them |
| Util.OutPointToBytes | util/utils.py:63-65 | the key is 36 bytes, the txid as stored then the index big-endian, and an index outside u32 raises |
| Util.OutPointToBytesInjective | util/utils.py:63-65 | two outpoints with the same key are the same outpoint |
| Util.CheckMagicByte | util/utils.py:146-158 | the check passes exactly when the bytes are one of the four network magic values, which are 4 bytes long |
| Udata.ProofSanityAsWritten | btcacc/udata.py:22-32 | the check as written accepts every UData |
| Udata.ProofSanityAcceptsMismatch | btcacc/udata.py:26-32 | a UData with one target and no stxos is accepted although the counts differ |
| Udata.ProofSanity | btcacc/udata.py:22-32 | the corrected check refuses only UData whose proof's target count differs from its record count, each of them one that the check as written accepts; a proof with targets but no records is refused |
| Udata.WriteEach | btcacc/udata.py:46-57 | the write loop writes the elements in order and stops at the first element that raises |
| Udata.ReadEach | btcacc/udata.py:97-102 | the read loop reads exactly the counted elements in order, or raises when one of them fails |
| Udata.ReadAllCount | btcacc/udata.py:97-102 | a successful read of n elements yields n elements |
| Udata.Serialize | btcacc/udata.py:34-57 | the method writes height, TTL count, TTLs, proof and stxos, stopping at the first failure |
| Udata.EncodingLayout | btcacc/udata.py:34-57 | a UData whose fields fit their formats encodes completely, as height, count, TTLs, proof and leaves |
| Udata.SerializeSize | btcacc/udata.py:59-76 | `serialize_size()` is at least 8 bytes of height and count, 4 per TTL, the encoded proof and 82 per record |
| Udata.SerializedLength | btcacc/udata.py:59-76 | `serialize_size` is the length of a complete encoding |
| Udata.Deserialize | btcacc/udata.py:78-105 | the method returns the decoding: height, TTL count, TTLs, proof, then one record per proof target; a failure at any of these steps is re-raised as the one `ValueError` ("UData deserialize error"), modelled as `UDataDecode` around the original error |
| Udata.RoundTrip | btcacc/udata.py:78-105 | with a sound proof codec, decoding the encoding of an encodable UData with one record per target restores it and leaves the following bytes unread |
| Udata.DecodedIsSane | btcacc/udata.py:97-102 | every UData that `deserialize` returns passes the corrected proof sanity check, because one record is read per proof target |
| Udata.ToCompactBytes | btcacc/udata.py:107-128 | the method returns the compact bytes (height, record count, records, proof, with no TTLs) exactly when every write completes, and otherwise the exception of the first write that fails |
| Udata.CompactLayout | btcacc/udata.py:115-128 | for encodable data the compact encoding completes and is the height, the record count, the records and the proof, one after the other |
| Udata.FromCompactBytes | btcacc/udata.py:130-162 | the method returns the compact decoding: a failed read raises, and a proof whose target count differs from the record count is refused |
| Udata.CompactRoundTrip | btcacc/udata.py:130-162 | with a sound codec, the compact encoding decodes back to the UData minus its TTLs when the proof has one target per record, and is refused naming both counts otherwise; bytes after the proof are ignored |
| Udata.LeafHashes | btcacc/udata.py:172 | one hash per deleted leaf, in order, each that leaf's leaf hash; it fails exactly when some leaf cannot be serialized |
| Udata.GenUData | btcacc/udata.py:164-189 | generation succeeds exactly when every leaf hashes, the proof is made, and it has one target per leaf; the result holds the height, that proof, the leaves and no TTLs, and it passes the corrected sanity check |
| UMsgBlock.BlockToAddLeaves | wire/umsgblock.py:25-73 | the method returns the leaves of the block's outputs as defined by the output-by-output step, for the given skip list and remember flags |
| UMsgBlock.AddTxLeaves | wire/umsgblock.py:40-71 | one transaction's loop extends the leaves exactly as the step does, and it advances the output number by the transaction's output count |
| UMsgBlock.AddOutput | wire/umsgblock.py:45-71 | one output: an unspendable output is passed over, a skip-list head equal to its number is dropped, and otherwise a leaf is appended with the leaf hash and the remember flag |
| UMsgBlock.IntendedLeavesExpected | wire/umsgblock.py:40-71 | for a strictly increasing skip list of non-negative numbers (as `dedupe_block` builds it), with the two checks in the evidently intended order, the leaves are exactly those of the outputs that are neither unspendable nor on the skip list, and what remains of the list is the numbers not yet reached |
| UMsgBlock.IntendedStep | wire/umsgblock.py:45-54 | one intended step keeps the leaves equal to the expected ones and the skip list equal to the numbers not yet reached |
| UMsgBlock.AddLeavesAgree | wire/umsgblock.py:45-54 | when no unspendable output's number is on the skip list, the code as written gives the same leaves as the intended order |
| UMsgBlock.StuckBlockOutSkip | util/utils.py:107-124 | in the example block, dedupe_block skips output 0 (unspendable) and output 1 (spent in the block) |
| UMsgBlock.StuckAdds | wire/umsgblock.py:45-54 | in the example block the skip list is never popped, so output 1 becomes a leaf |
| UMsgBlock.StuckExpects | wire/umsgblock.py:45-54 | in the example block the intended leaves are only that of output 2 |
| UMsgBlock.StuckSkipHead | wire/umsgblock.py:45-54 | for the example block, the as-written loop adds a leaf for an output that the same block spends, and this differs from the intended leaves |
| UMsgBlock.FirstMismatch | wire/umsgblock.py:88-93 | the first position where the deleted outpoints and the stxos' outpoints differ, or none |
| UMsgBlock.SanityCheckSpec | wire/umsgblock.py:75-97 | the check passes exactly when there are as many stxos as deleted outpoints, each stxo names the outpoint at its position, and the proof has one target per stxo; with equal counts, the first differing position is the one reported |
| UMsgBlock.SanityCheck | wire/umsgblock.py:75-97 | a UBlock the corrected check passes also passes the check as written, and has one record and one proof target per deleted outpoint |
| UMsgBlock.ProofSanity | wire/umsgblock.py:75-97 | the method returns that check's outcome |
| UMsgBlock.SanityCheckAsWrittenSpec | wire/umsgblock.py:75-97 | as written, the check passes exactly when there are as many stxos as deleted outpoints and each stxo names the outpoint at its position, whatever the proof holds, because the closing UData check always passes; with equal counts, the first differing position is the one reported |
| UMsgBlock.SanityCheckAsWritten | wire/umsgblock.py:75-97 | the check as written never fails with ProofDataMismatch, and a UBlock it passes has one record per deleted outpoint |
| UMsgBlock.SanityCheckRefines | wire/umsgblock.py:95-97 | the corrected check fails wherever the check as written fails, with the same error; where the check as written passes, the corrected one fails only on a proof whose target count differs from the stxo count |
| UMsgBlock.SanityChecksDiffer | wire/umsgblock.py:95-97 | a coinbase-only block with no stxos and a one-target proof passes the check as written and fails the corrected one |
| UMsgBlock.ToUtxoView | wire/umsgblock.py:99-109 | the method returns the UTXO view built from the stxos |
| UMsgBlock.UtxoView | wire/umsgblock.py:99-109 | the view built from the records has at most one entry per record |
| UMsgBlock.UtxoViewLookup | wire/umsgblock.py:103-107 | the entry of each stxo's outpoint is that of the last stxo with that outpoint |
| UMsgBlock.UtxoViewKeys | wire/umsgblock.py:103-107 | the view's keys are exactly the outpoints of the stxos |
| UMsgBlock.SerializedLength | wire/umsgblock.py:153-160 | for an encodable UData, and when btcd's `serialize_size` of the block is the length of btcd's encoding of it, the pair encodes completely and `serialize_size` is the length of the encoding |
| UMsgBlock.SerializeSize | wire/umsgblock.py:158-160 | `serialize_size()` is at least btcd's block size plus the UData's 8 bytes, the encoded proof and 82 bytes per record |
| Idb.LoseInputsConsistent | csn/idb.py:111-123 | spending inputs keeps the score equal to the sum of the amounts in the store |
| Idb.GainOutputsConsistent | csn/idb.py:126-143 | when none of the transaction's outpoints is already in the store, gaining its outputs keeps the score equal to the sum of the amounts in the store, and adds only the transaction's outpoints |
| Idb.ScanTxsConsistent | csn/idb.py:107-143 | when the transactions' txids are distinct and none of their outpoints is already in the store, scanning them keeps the score equal to the sum of the stored amounts; without that, the overwrite at csn/idb.py:134 adds an amount twice |
| Idb.ScanTxEffect | csn/idb.py:107-143 | after one transaction, each of its outputs that pays a watched address is stored, an outpoint of another transaction that it spends is gone, and every other outpoint of another transaction is unchanged |
| Idb.LoseInputsEffect | csn/idb.py:111-123 | a spent outpoint leaves the store and no other entry changes |
| Idb.GainOutputsEffect | csn/idb.py:126-143 | an output whose 22-byte script pays a watched address enters the store with its value, and entries of other transactions do not change |
| Idb.StopCount | csn/idb.py:83-87 | the number of blocks processed before `quit_after` stops the loop: at most the queue length, the whole queue when quit_after is -1 |
| Idb.Heights | csn/idb.py:71-72 | one height per processed block, rising by one from the starting height |
| Idb.SentHeights | csn/idb.py:71-72 | the height channel receives exactly those heights |
| Idb.Csn.constructor | csn/idb.py:17-28 | a new node has height 0, an empty store, zero score, no watched addresses and no channels |
| Idb.Csn.LoseTxInputs | csn/idb.py:111-123 | the input loop updates the store, score and tx channel as the functional definition does |
| Idb.Csn.GainTxOutputs | csn/idb.py:126-143 | the output loop updates the store, score and tx channel as the functional definition does |
| Idb.Csn.ScanBlock | csn/idb.py:107-143 | scanning a block applies both loops to each transaction in order |
| Idb.Csn.PutBlockInPollard | csn/idb.py:145-159 | the result is the block's proof check |
| Idb.Csn.ProcessBlock | csn/idb.py:63-74 | a failed check changes nothing; a passing block has its height sent and is scanned |
| Idb.Csn.IbdThread | csn/idb.py:30-105 | blocks are processed up to the first failed check or the stop count; the height rises by the number processed; the wallet state is the scan of those blocks; one signal is sent unless a check fails |
| Hook.WatchEffect | csn/hook.py:55-57 | registering makes the key watched and changes no other key |
| Hook.UnwatchEffect | csn/hook.py:59-62 | unregistering makes the key unwatched and changes no other key; an absent key is no error |
| Hook.WatchKeepsAllTrue | csn/hook.py:55-66 | the dictionaries only ever hold True |
| Hook.WatchUnwatch | csn/hook.py:55-62 | unregistering undoes registering a new key, and both operations are idempotent |
| Hook.WatchCommutes | csn/hook.py:55-62 | registrations of two keys commute, and so do removals |
| Hook.Csn.constructor | csn/hook.py:42-53 | a new node has height 0, watches nothing and has empty channels and store |
| Hook.Csn.RegisterOutPoint | csn/hook.py:55-57 | the outpoint is added to the watched outpoints; every other field is unchanged |
| Hook.Csn.UnregisterOutPoint | csn/hook.py:59-62 | the outpoint is removed if present; every other field is unchanged |
| Hook.Csn.RegisterAddress | csn/hook.py:64-66 | the address is added to the watched addresses; every other field is unchanged |
| Hook.Csn.PushTx | csn/hook.py:68-71 | pushing a transaction changes nothing |
| ChainUtils.GenHashForNet | utils/utils.py:50-60 | the four known network names map to their genesis hashes; any other name raises ValueError; util/utils.py holds the same table and lookup |
| ChainUtils.GenHashInjective | utils/utils.py:50-60 | no two networks share a genesis hash |
| ChainUtils.OutPointToBytes | utils/utils.py:65-68 | a txid not of 32 bytes raises, an index outside u32 raises; otherwise the key is the reversed txid, then the index big-endian, 36 bytes in all |
| ChainUtils.OutPointToBytesInjective | utils/utils.py:65-68 | two outpoints with the same key are the same outpoint |
| ChainUtils.OutPointKeysDiffer | utils/utils.py:65-68 | this key is util/utils.py's key with the txid bytes reversed |

## Left out

- The accumulator (the pollard) is not part of this model. This covers `stats`, `reconstruct_stats`, `prove_batch` and the `BatchProof` codec, which are parameters. `Idb.Csn.PutBlockInPollard` stops where the source does: it runs `dedupe_block`, ignores the result, and then does the proof check.
- SHA-512 is a parameter `digest`. `leaf_hash` takes the first 32 bytes of the digest of the serialization.
- `UMsgBlock.SerializedLength`: btcd's block encoding and btcd's `serialize_size` are two separate parameters. The lemma assumes that the size is the encoding's length. `UMsgBlock.Encoding` takes btcd's encoder to never raise. Neither assumption is checked here, because btcd is not part of this model.
- Timing, logging and `print` output are left out. They do not change any returned value.
- The queue in `ibd_thread` is a local list in csn/idb.py that nothing fills. Here the queue is a parameter.
- `halt_request` is never set in csn/idb.py, so the halt branch is not modelled.
- `save_ibd_sim_data` and idb's own `register_out_point` are `pass`, so the scan does nothing when it calls them.
- `check_block` and the network reader are not part of this model.
- Neither are csn/reload.py, csn/config.py, csn/init.py, the command-line programs and the bridge server.
- `if not lost_txo` in `scan_block` never triggers, because a stored `LeafData` is always truthy. The model takes the branch that is always taken.
- `Util.DedupeBlock`, `Util.BlockToDelOps`, `UMsgBlock.ProofSanity`, `Idb.Csn.PutBlockInPollard`, `Idb.Csn.ProcessBlock` and `Idb.Csn.IbdThread` require at least one transaction per block. With none, `dedupe_block` fails on its unbound `inskip`. Every valid Bitcoin block has a coinbase transaction, so the model does not reproduce that crash.
- `hash_from_string` (util/utils.py:59-61 and utils/utils.py:62-63) is not modelled. It is the SHA-256 digest of the string's UTF-8 bytes, a foreign hash like the SHA-512 of `leaf_hash`, and it does not parse the hex display.
- `UBlock.proof_sanity` in wire/umsgblock.py calls `self.block_to_del_ops()`, which the class does not define. The model uses util/utils.py's `block_to_del_ops` on the UBlock's block.
- The same method ignores its `nl` and `h` arguments, so the model drops them.
- `Udata.ProofSanity` is the corrected check (see Findings). The call sites use it instead of `Udata.ProofSanityAsWritten`.
- `UMsgBlock.ProofSanity` and `UMsgBlock.SanityCheck` use that corrected check. As written, `UBlock.proof_sanity` passes a UBlock whose stxos match the deleted outpoints but whose proof has a different number of targets. An example is a coinbase-only block with no stxos and a one-target proof (`UMsgBlock.SanityChecksDiffer`). The model fails such a block with `ProofDataMismatch`. So for that input, `Idb.Csn.PutBlockInPollard` returns the failure, and `Idb.Csn.ProcessBlock` and `Idb.Csn.IbdThread` stop instead of scanning the block. `UMsgBlock.SanityCheckAsWritten` with `UMsgBlock.SanityCheckAsWrittenSpec` states the behaviour as written. `UMsgBlock.SanityCheckRefines` states that this target-count failure is the only difference.
- `Udata.Deserialize` returns only the error when decoding fails. In the source, `deserialize` assigns `self.height`, `self.txo_ttls` and `self.acc_proof` one at a time, so a later failure leaves `self` partly overwritten. No caller in the core reuses the object after the raise. The LeafData decoder does keep its partial state (`Btcacc.DeserializeOversized`).
- The default value of a leaf's `remember` flag is assumed, not taken from the source. `Leaf` comes from the `accumulator` package, which is not part of this model. The constant `UMsgBlock.DefaultRemember` assumes that `Leaf` sets `remember` to false when wire/umsgblock.py:66-68 does not set it.
- Python's `bytes` are sequences of 8-bit values. Integers are unbounded, and each `struct` format is checked by its own range predicate.

## Findings

| source | as written | input that shows it | evidently intended | confidence | as-written member | corrected member |
|---|---|---|---|---|---|---|
| btcacc/udata.py:22-32 | `proof_sanity` prints a message on a mismatch of target count and stxo count, then returns True anyway | a UData whose proof has one target and whose stxo list is empty | return False on a mismatch, as test/udata_test.py:118-120 expects | high, not executed | Udata.ProofSanityAcceptsMismatch | Udata.ProofSanity |
| wire/umsgblock.py:45-54 | the unspendable test runs before the skip-list test, so when `dedupe_block` puts an unspendable output's number at the head of the skip list, that number is never popped and every later skip is missed | `UMsgBlock.StuckBlock`, a valid block: a coinbase paying only an OP_RETURN output (output 0), a transaction paying output 1, and a third transaction spending output 1. `dedupe_block` gives outskip [0, 1], and output 1 becomes a leaf although it is spent in the block | pop a skip-list head equal to the current output number before testing for unspendable, so only unspent spendable outputs become leaves | medium, not executed; latent in this repository, because no caller passes `dedupe_block`'s outskip to `block_to_add_leaves` (`put_block_in_pollard`, csn/idb.py:145-159, stops after the proof check) | UMsgBlock.StuckSkipHead | UMsgBlock.IntendedLeavesExpected |
