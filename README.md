# Lockup NFT collection wrapper: the outbound serialisers

The TypeScript wrapper `wrappers/LockupNftCollection.ts` is the off-chain
side of a TON lockup NFT collection contract. It turns typed values into
TON cells:

- the collection content cell;
- the deployment data cell (`nftCollectionConfigToCell`);
- the bodies of the deploy, mint-one and batch-mint messages;
- the contract handle (`createFromAddress` and `createFromConfig`).

This project models those serialisers and proves what they promise:

- when each one succeeds, and with which error it fails otherwise;
- for the data cell and each message body, the exact bit layout and references;
- a reader of the cell that recovers every field: the round trips.

The model has five modules plus a small module of carrier types:

- `Bits`: big-endian encodings of unsigned and two's-complement integers,
  bytes, and the byte count of a coins amount, each with the reading that
  inverts it.
- `Cells`: TON cells as values (at most 1023 bits and 4 references). It holds:
  - each ton-core builder append as a function on the cell built so far,
    with storeUint's range check coming before its capacity check;
  - a slice reader (`Load*`) standing for the on-chain contract's parser;
  - the snake layout that `storeStringTail` uses.
- `CellBuilder`: the mutable ton-core `Builder` (a class whose methods update
  its bits and references) and `Dictionary` with its `set`. Each method is
  proved to perform the matching append of `Cells`.
- `Utf8`: the UTF-8 encoding `Buffer.from(text)` applies, and its decoder.
- `LockupNftCollection`: the wrapper itself.
  - The builder code that changes builders step by step becomes methods:
    - `BuildNftCollectionContentCell`, `SendDeployBody` and `SendMintNftBody`;
    - `SendBatchMintBody`, whose `for` loop fills the dictionary in `FillBatchDictionary`.
  - Each such method is proved equal to a pure function. For example,
    `ensures body == MintNftBody(req)`.
  - Round trips and invariants are proved about those functions.

Thrown exceptions become `Result` values. The error kinds are:

- `RangeError`: a value does not fit its declared width;
- `CapacityError`: a cell would exceed 1023 bits or 4 references;
- `LimitExceeded`: a batch mint of more than 250 items;
- `UnsafeKey`: a dictionary key that is not a safe JavaScript integer (above 2^53 - 1 in magnitude), which `Dictionary.set` rejects.

Four behaviours of the wrapper are easy to misread. The model follows the code in each:

- **Duplicate indices in a batch mint do not fail.** The wrapper calls `Dictionary.set`, which replaces the earlier item, so the last item with a given index wins (`BatchEntriesLastWins`).
- **A batch of 250 items gives 250 entries only when the indices are pairwise distinct** (`BatchEntriesCount`). With repeated indices there are fewer.
- **A negative item index does not fail in the loop.** `Dictionary.set` with `Keys.Uint(64)` keys only demands a safe integer; the 64-bit key width is checked when `storeDict` serialises the keys, after the loop and after the query id (`AppendUintDict`, `BatchMintFields`). An index that is not a safe integer fails in the loop, at its `set` (`FillBatchDictionary`).
- **Mint-one item content is stored with `storeBuffer`, not `storeStringTail`.** Content longer than 127 UTF-8 bytes therefore fails with a capacity error instead of spilling into a chained cell (`MintNftMessage`).

## Model

| member | source | states |
|---|---|---|
| Bits.UintBitsRoundTrip | wrappers/LockupNftCollection.ts:44 | reading n bits back gives the value that storeUint wrote, for every value below 2^n |
| Bits.BitsToNatRoundTrip | wrappers/LockupNftCollection.ts:44 | every n-bit string is the encoding of the number it denotes, so the encoding is onto |
| Bits.UintBitsInjective | wrappers/LockupNftCollection.ts:44 | two values below 2^n with the same n-bit encoding are equal |
| Bits.IntBitsRoundTrip | wrappers/LockupNftCollection.ts:53 | the two's-complement workchain field reads back as the signed value written |
| Bits.BytesRoundTrip | wrappers/LockupNftCollection.ts:98 | bytes laid out 8 bits each read back as the same bytes |
| Bits.ByteLenBounds | wrappers/LockupNftCollection.ts:112 | the coins byte count is the shortest one: v fits in that many bytes and, when v > 0, not in one fewer |
| Bits.CoinsLengthFits | wrappers/LockupNftCollection.ts:112 | the 4-bit length prefix of a coins amount can hold the byte count exactly when the amount is below 2^120 |
| Cells.AppendUint | wrappers/LockupNftCollection.ts:44 | storeUint succeeds iff 0 <= v < 2^n and the bits fit; an out-of-range value is a range error whatever the room; on success exactly the n-bit encoding is appended |
| Cells.AppendInt | wrappers/LockupNftCollection.ts:53 | storeInt succeeds iff v fits n-bit two's complement and the bits fit; otherwise a range error comes first; on success the encoding is appended |
| Cells.AppendBit | wrappers/LockupNftCollection.ts:56 | storeBit succeeds iff one more bit fits, and appends exactly that bit |
| Cells.AppendBytes | wrappers/LockupNftCollection.ts:98 | storeBuffer succeeds iff all bytes fit in this cell (no spill), and appends them |
| Cells.AppendCoins | wrappers/LockupNftCollection.ts:60-61 | storeCoins succeeds iff 0 <= v < 2^120 and the field fits; a negative or too large amount is a range error; on success it appends the VarUInteger 16 encoding |
| Cells.AppendAddress | wrappers/LockupNftCollection.ts:53 | storeAddress succeeds iff the workchain fits int8 and 267 bits fit; on success it appends tag 10, no anycast, the workchain and the 32 hash bytes |
| Cells.AppendRef | wrappers/LockupNftCollection.ts:36-37 | storeRef succeeds iff fewer than 4 references are held, and appends the child last |
| Cells.AppendDict | wrappers/LockupNftCollection.ts:56 | storeDict succeeds iff its bit fits and, when there are entries, a reference slot is free; it writes 0 for an empty dictionary, else 1 and the root reference |
| Cells.AppendUintDict | wrappers/LockupNftCollection.ts:141 | storeDict of a Keys.Uint dictionary succeeds iff AppendDict does and every key fits the key width; a key that does not fit is a range error before anything is written; on success the field is the one AppendDict writes |
| Cells.AppendBufferTail | wrappers/LockupNftCollection.ts:34 | the snake write into a cell within the bit limit fails only when the bytes do not all fit here and the cell already has four references; the chained tail never fails |
| Cells.AppendStringTail | wrappers/LockupNftCollection.ts:34 | storeStringTail into a fresh cell never fails, gives a cell tree within the limits, and its snake reads back as bytes that decode to the text |
| Cells.ZeroBits | wrappers/LockupNftCollection.ts:57-61 | the reserved two bits are 00 and storeCoins(0) writes four zero bits |
| Cells.LoadUintOf | wrappers/LockupNftCollection.ts:44 | a reader of n bits takes exactly the stored value off the front and leaves the rest |
| Cells.LoadCoinsOf | wrappers/LockupNftCollection.ts:112 | a coins reader takes exactly the stored amount off the front, for every amount below 2^120 |
| Cells.LoadAddressOf | wrappers/LockupNftCollection.ts:102 | an address reader recovers the stored address and leaves the rest |
| Cells.AddressBitsInjective | wrappers/LockupNftCollection.ts:53 | different addresses have different encodings |
| Cells.SnakeRoundTrip | wrappers/LockupNftCollection.ts:34 | storeStringTail into a fresh cell never fails, every cell of the chain is within the limits, and reading the snake gives back exactly the bytes |
| Cells.ShortTailIsFlat | wrappers/LockupNftCollection.ts:34 | up to 127 bytes, storeStringTail gives one cell holding just the bytes |
| CellBuilder.Builder.constructor | wrappers/LockupNftCollection.ts:29 | beginCell gives an empty builder |
| CellBuilder.Builder.EndCell | wrappers/LockupNftCollection.ts:39 | endCell returns the contents, within both cell limits |
| CellBuilder.Builder.StoreUint | wrappers/LockupNftCollection.ts:44 | the builder performs AppendUint: on success it holds the appended cell, on failure it reports the same error |
| CellBuilder.Builder.StoreInt | wrappers/LockupNftCollection.ts:53 | the builder performs AppendInt, success and error alike |
| CellBuilder.Builder.StoreBit | wrappers/LockupNftCollection.ts:56 | the builder performs AppendBit |
| CellBuilder.Builder.StoreBuffer | wrappers/LockupNftCollection.ts:98 | the builder performs AppendBytes |
| CellBuilder.Builder.StoreCoins | wrappers/LockupNftCollection.ts:112 | length prefix then value, with the builder ending as AppendCoins says |
| CellBuilder.Builder.StoreAddress | wrappers/LockupNftCollection.ts:102 | tag, anycast bit, workchain and hash, with the builder ending as AppendAddress says |
| CellBuilder.Builder.StoreRef | wrappers/LockupNftCollection.ts:103 | the builder performs AppendRef |
| CellBuilder.Builder.StoreDict | wrappers/LockupNftCollection.ts:141 | the builder performs AppendUintDict for the dictionary's key width and current entries, its key-width range error included |
| CellBuilder.Builder.StoreStringTail | wrappers/LockupNftCollection.ts:34 | the builder performs AppendStringTail on the text's UTF-8 bytes |
| CellBuilder.WriteBufferTail | wrappers/LockupNftCollection.ts:34 | the recursive fill-then-chain write ends as the snake layout AppendBufferTail describes |
| CellBuilder.Dictionary.Empty | wrappers/LockupNftCollection.ts:130 | Dictionary.empty with 64-bit unsigned keys has no entries |
| CellBuilder.Dictionary.Set | wrappers/LockupNftCollection.ts:132 | set fails (UnsafeKey) iff the key is not a safe integer, whatever the key width, and otherwise replaces or adds exactly that entry |
| Utf8.Encode | wrappers/LockupNftCollection.ts:98 | Buffer.from(text) gives between one and four bytes per character |
| Utf8.DecodeEncode | wrappers/LockupNftCollection.ts:98 | decoding the bytes Buffer.from produces gives the text back |
| Utf8.EncodeInjective | wrappers/LockupNftCollection.ts:98 | two texts with the same UTF-8 bytes are equal |
| LockupNftCollection.ContentCell | wrappers/LockupNftCollection.ts:28-40 | the content cell has no bits and two references: the off-chain content, then a snake that reads back as the common content's UTF-8 bytes |
| LockupNftCollection.BuildNftCollectionContentCell | wrappers/LockupNftCollection.ts:28-40 | the builder code produces exactly ContentCell |
| LockupNftCollection.ContentRoundTrip | wrappers/LockupNftCollection.ts:28-40 | reading the content cell gives back the off-chain cell and the common content text |
| LockupNftCollection.ContentWellFormed | wrappers/LockupNftCollection.ts:28-40 | the content cell and all cells below it are within the limits whenever the off-chain cell is |
| LockupNftCollection.RoyaltyFactors | wrappers/LockupNftCollection.ts:49-52 | the four factors succeed iff each fits 32 bits; a failure is a range error; they are written in source order with no references |
| LockupNftCollection.RoyaltyCell | wrappers/LockupNftCollection.ts:48-54 | the royalty sub-cell succeeds iff the four factors fit 32 bits and the address fits; a failure is a range error; on success it has 395 bits and no references |
| LockupNftCollection.RoyaltyLayout | wrappers/LockupNftCollection.ts:48-54 | the royalty sub-cell holds the four 32-bit factors and then the address, in that order |
| LockupNftCollection.RoyaltyRoundTrip | wrappers/LockupNftCollection.ts:48-54 | reading the royalty sub-cell gives back every royalty parameter |
| LockupNftCollection.ConfigHead | wrappers/LockupNftCollection.ts:43-56 | for the fields it writes itself (the staking dictionary's encoding is the given root, see Left out), the first part of the data cell succeeds iff nextItemIndex fits 64 bits and the royalty parameters fit; a failure is a range error; it has 65 bits and the references code, content, royalty and (when there are staking entries) the dictionary root |
| LockupNftCollection.ConfigTail | wrappers/LockupNftCollection.ts:57-61 | the fields after the dictionary succeed iff both withdrawal factors fit 16 bits; a failure is a range error; they append 00, the two factors and two zero coin fields |
| LockupNftCollection.ConfigToCell | wrappers/LockupNftCollection.ts:42-63 | nftCollectionConfigToCell succeeds exactly when every field it writes itself is within its range; the staking dictionary's root is a given cell (see Left out) |
| LockupNftCollection.ConfigToCellError | wrappers/LockupNftCollection.ts:42-63 | it can only fail with a range error, never a capacity error |
| LockupNftCollection.ConfigLayout | wrappers/LockupNftCollection.ts:42-63 | the data cell has 107 bits (index, dictionary bit, 00, both factors, two zero coins) and the references code, content, royalty, dictionary root |
| LockupNftCollection.ConfigRoundTrip | wrappers/LockupNftCollection.ts:42-63 | the contract's reading of the data cell gives back every configuration field, the staking root exactly when there are entries, and zeros in the reserved fields, with nothing left over |
| LockupNftCollection.ConfigWellFormed | wrappers/LockupNftCollection.ts:42-63 | the data cell and everything below it stay within the cell limits whenever the given cells do |
| LockupNftCollection.DataCellWellFormed | wrappers/LockupNftCollection.ts:45-56 | a cell within the bit limit whose references are the three given cells and an optional root is well formed when each of those is |
| LockupNftCollection.NextItemIndexOnlyInFirst64Bits | wrappers/LockupNftCollection.ts:44 | two configurations that differ only in nextItemIndex give data cells with the same references and the same bits after the first 64 |
| LockupNftCollection.CreateFromAddress | wrappers/LockupNftCollection.ts:68-70 | the handle has the given address and no init |
| LockupNftCollection.CreateFromConfig | wrappers/LockupNftCollection.ts:72-76 | it succeeds iff the fields the data cell writes itself fit (the staking root is a given cell, see Left out); the handle carries the pair (code, data cell) as init and the address derived from the workchain and that pair |
| LockupNftCollection.DistinctConfigsDistinctAddresses | wrappers/LockupNftCollection.ts:72-76 | with a collision-free address derivation, two configurations a reader of the data cell can tell apart deploy to different addresses |
| LockupNftCollection.SendDeployBody | wrappers/LockupNftCollection.ts:82 | the deploy body has no bits and no references |
| LockupNftCollection.MintNftMessage | wrappers/LockupNftCollection.ts:97-103 | the item message succeeds iff the content's UTF-8 form has at most 127 bytes and the owner's workchain fits; too long content is a capacity error, otherwise a range error; it is the owner address with one reference to a flat cell of the content bytes |
| LockupNftCollection.MintNftMessageRoundTrip | wrappers/LockupNftCollection.ts:97-103 | reading the item message gives back the owner and the content text |
| LockupNftCollection.MintNftFields | wrappers/LockupNftCollection.ts:108-114 | the body fields succeed iff queryId and itemIndex fit 64 bits and the amount is in [0, 2^120); a failure is a range error |
| LockupNftCollection.MintNftFieldsLayout | wrappers/LockupNftCollection.ts:108-114 | the body is opcode 1 in 32 bits, queryId, itemIndex, the coins amount, and the one message reference |
| LockupNftCollection.MintNftBody | wrappers/LockupNftCollection.ts:97-114 | the mint-one body succeeds exactly when the request fits; once the message is built, it is the fields cell around that message |
| LockupNftCollection.MintNftBodyError | wrappers/LockupNftCollection.ts:97-114 | a failing mint is a capacity error exactly when the content exceeds 127 bytes, and a range error otherwise (the message is built before the body) |
| LockupNftCollection.SendMintNftBody | wrappers/LockupNftCollection.ts:97-114 | the builder code yields exactly MintNftBody, its errors included |
| LockupNftCollection.MintNftRoundTrip | wrappers/LockupNftCollection.ts:97-114 | the contract's reading of the body gives back the request (queryId, itemIndex, owner, content, amount) |
| LockupNftCollection.ParseMintNftOf | wrappers/LockupNftCollection.ts:109 | a body is read as a mint request only when its opcode is 1 |
| LockupNftCollection.BatchEntries | wrappers/LockupNftCollection.ts:130-133 | the loop's dictionary exists iff every index is a safe integer; otherwise the loop fails with UnsafeKey |
| LockupNftCollection.BatchEntriesKeys | wrappers/LockupNftCollection.ts:130-133 | the dictionary's keys are exactly the items' indices |
| LockupNftCollection.BatchEntriesLastWins | wrappers/LockupNftCollection.ts:132 | an item whose index no later item repeats is the value held for that index |
| LockupNftCollection.BatchEntriesCount | wrappers/LockupNftCollection.ts:130-133 | there are at most as many entries as items, and exactly as many when the indices are pairwise distinct |
| LockupNftCollection.BatchEntriesStep | wrappers/LockupNftCollection.ts:131-133 | one more item adds that item, or fails with UnsafeKey when its index is not a safe integer |
| LockupNftCollection.BatchFailurePersists | wrappers/LockupNftCollection.ts:131-133 | once a prefix of the items fails, the whole list fails with UnsafeKey |
| LockupNftCollection.FillBatchDictionary | wrappers/LockupNftCollection.ts:130-133 | the loop over a 64-bit-key dictionary succeeds iff every index is a safe integer (it stops at the first that is not), and then its dictionary holds exactly BatchEntries |
| LockupNftCollection.BatchMintFields | wrappers/LockupNftCollection.ts:138-142 | for the fields it writes itself (the items' MintValue encoding is the given root, see Left out), the batch body fields succeed iff queryId fits 64 bits and every dictionary key fits 64 bits; a failure is a range error |
| LockupNftCollection.BatchEntriesKeysFit | wrappers/LockupNftCollection.ts:130-141 | the loop's dictionary has keys that fit 64 bits exactly when no index is negative, since a safe integer is below 2^64 |
| LockupNftCollection.BatchMintFieldsLayout | wrappers/LockupNftCollection.ts:138-142 | the body is opcode 2 in 32 bits, queryId, the dictionary bit, and the root reference exactly when there are entries |
| LockupNftCollection.BatchMintBody | wrappers/LockupNftCollection.ts:126-142 | more than 250 items is a limit error before any work; then an unsafe index is UnsafeKey from the loop; otherwise, for the fields it writes itself (the items' MintValue encoding is the given root, see Left out), it succeeds iff queryId and the keys fit 64 bits, with a range error otherwise; on success it is the fields cell of the loop's dictionary |
| LockupNftCollection.BatchMintBodySucceeds | wrappers/LockupNftCollection.ts:126-142 | for the fields the wrapper writes itself (the items' MintValue encoding is the given root, see Left out), a batch mint succeeds exactly when there are at most 250 items, queryId fits 64 bits and every index is in [0, 2^53 - 1] |
| LockupNftCollection.SendBatchMintBody | wrappers/LockupNftCollection.ts:126-142 | the wrapper code (limit check, dictionary loop, body) yields exactly BatchMintBody |
| LockupNftCollection.BatchMintRoundTrip | wrappers/LockupNftCollection.ts:138-142 | the contract's reading of the body gives back the queryId and the dictionary root, which is there exactly when some item was added |
| LockupNftCollection.ParseBatchMintOf | wrappers/LockupNftCollection.ts:139 | a body is read as a batch mint only when its opcode is 2 |

## Left out

- Sending the messages is not modelled: `provider.internal`, the `Sender`, the attached value, `SendMode` and `async`. Only the bodies are modelled, since they are the wrapper's own logic.
- `encodeOffChainContent` (`wrappers/helpers/content`) is not part of this model. It is a parameter `string -> Cell`.
- The HashmapE serialisation of a non-empty dictionary is not modelled: the staking dictionary's key and value serialisers and `MintValue` (`wrappers/helpers/collectionHelpers`). It is a parameter from the entries to the root cell. Of the batch dictionary's serialisation only the 64-bit key-width check is modelled (`AppendUintDict`).
- `contractAddress` (the hash of the init pair) is a parameter. Address results that need collision-freedom take it as a hypothesis (`Injective`).
- TypeScript `number` fields above 2^53 cannot all be represented. For the batch item index the model follows ton-core: an index that is not a safe integer (2^60, say) makes `set` throw (`UnsafeKey`). For the other `number` fields (queryId, itemIndex, nextItemIndex, the factors), which go straight to `storeUint`, the model uses unbounded integers and does not model the rounding of values above 2^53.
- Lone UTF-16 surrogates, which `Buffer.from` replaces with U+FFFD, cannot occur: Dafny characters are Unicode scalar values.
- Only standard internal addresses with a 32-byte hash are modelled. ton-core's `Address` admits no other kind here.
- The readers (`ParseConfig`, `ParseMintNft`, `ParseBatchMint`, `ParseContent`) stand for the on-chain contract's parsing, whose source is not part of this model. They read the layout the wrapper writes.
- CellBuilder.Builder.StoreAddress: after a failure, nothing is promised about how much of the field was written or what the builder then holds. The same holds for CellBuilder.Builder.StoreCoins, CellBuilder.Builder.StoreDict, CellBuilder.WriteBufferTail, and for the single-step appends CellBuilder.Builder.StoreUint, CellBuilder.Builder.StoreInt, CellBuilder.Builder.StoreBit, CellBuilder.Builder.StoreBuffer and CellBuilder.Builder.StoreRef, whose contracts state only the reported error. Every caller abandons the builder on failure, as the thrown exception does in the source.
- LockupNftCollection.MintNftMessage (and LockupNftCollection.MintNftBodyError): the 1023-bit limit is checked at `storeBuffer` (line 98). ton-core's `BitBuilder` sits on a 128-byte buffer; if its aligned `writeBuffer` admits a full 128 bytes (1024 bits), the overflow is reported only when the content builder is finished at `storeRef` (line 103), after `storeAddress` (line 102). Then content of exactly 128 UTF-8 bytes with an owner workchain outside int8 fails with the workchain's range error, where the model says CapacityError. Success and failure agree for every input; only the error kind in that one case may differ. ton-core's text is not part of this model.
- LockupNftCollection.BatchMintBody: `storeDict(dict)` at line 141 runs `MintValue` on each item (amount, owner, content), which can throw, for instance on a negative amount. The dictionary's encoding is a total root parameter, so those failures are not modelled: the success condition covers only the limit, the indices and the query id. The loop itself (LockupNftCollection.BatchEntries) serialises nothing.
- LockupNftCollection.BatchMintFields: the same gap. Its success condition leaves out the failures of `MintValue` inside `storeDict` at line 141.
- LockupNftCollection.BatchMintBodySucceeds: the same gap. "Succeeds exactly when" holds for the fields the wrapper writes itself, not for a `MintValue` failure inside `storeDict` at line 141.
- LockupNftCollection.SendBatchMintBody: it equals BatchMintBody, so it has the same gap on `MintValue` failures.
- LockupNftCollection.ConfigHead: it makes the `storeDict(config.stakingParams)` call of line 56. A failure of the staking dictionary's key or value serialisers there is not modelled, since the root is a total parameter; its success condition covers only the fields it writes itself.
- LockupNftCollection.ConfigToCell (and LockupNftCollection.CreateFromConfig, which calls it through ConfigHead): `storeDict(config.stakingParams)` runs the staking dictionary's key and value serialisers, which can throw (a key or value too wide for its serialiser). The root is a total parameter here, so that failure is not modelled; the success condition covers only the fields the data cell writes itself.
- Cell hashing, bag-of-cells encoding, exotic cells and cell depth limits are outside the wrapper and are not modelled.
