# Verified model of the Swig SDKs

Swig is a wallet whose authorities hold roles, and whose roles hold lists of actions. This project
models the client-side logic that has to agree, byte for byte, with programs on other machines:

- **Huffman coding and the WebAuthn prefix.** `HuffmanTrees`, `HuffmanCodes`, `HuffmanOptimality`,
  `BitPacking`, `TreeBytes`, `HuffmanDecoding`, `HuffmanOrder`, `HuffmanArrival`, `HuffmanLimits`,
  `HuffmanOtherTexts`, `HuffmanRequests` and `HuffmanCounts` state what the coder computes as
  functions on values; `HuffmanEncoder` is the class with the original's loops, proved against them.
  `WebAuthnPrefix` is the buffer around it, and `PrefixFormats` compares it with its documentation.
- **Action buffers.** `StructCodecs` and `ActionCodec` hold the payload layouts, the record header
  and the parser; `ActionsBuilder` and `BuilderCalls` the fluent builder; `SpendControl`,
  `ActionQueries` and `BuiltRoles` the questions asked of a parsed role. `PayloadBytes`,
  `BuiltPayloads` and `SpentLimits` say the same byte by byte, without the layouts.
- **Role permissions.** `RolePermissions`, `RoleReading`, `UsedRoles` and `RoleReader` translate
  high-level permissions to role actions and read a role back, with the normal form that makes the
  two inverse. `SdksAgree` and `BuiltScopes` compare what the two Solana SDKs store.
- **EVM permission codecs.** `EvmPermissions` is the format as Python concatenates it, with the proof
  that it is a bijection; `EvmRust` and `EvmTypeScript` are the appending and the offset-writing
  forms, proved to compute the same. `SharedFormat` shows that it is the format of the Solana payloads.
- **Packing.** `PackedOperations` packs ERC-4337 user operations; `Reservation` is the 99 or 100 byte
  reservation package.

`Bytes` has the fixed-width integers that all of them share. Loops, buffers and objects that the
original changes in place are methods, arrays and classes; pure code is functions. A failure that
the original throws or returns is `None` or an error value; the exceptions are named under
"Left out".

`dafny verify dfyconfig.toml` checks everything.

## Where the code differs from its own documentation

The model follows the code.

- `decode` emits a character one bit after reaching its leaf. For a text with at most 129 distinct
  characters, all below 256, `decode(encode(text))` therefore loses the last character whenever the
  bits fill the last byte and there are two or more distinct ones (`HuffmanDecoding.DecodeLaw`,
  `HuffmanDecoding.LastCharacterLost`); other texts never come back (`HuffmanLimits.DecodeReturnsText`).
  Asked for fewer characters it leaves only the loop over one byte's bits, and may give more than
  were asked for (`HuffmanRequests.DecodeFewer`, `HuffmanCounts.SecondByteAddsOne`).
- `solSpend` and `tokenSpend` are commented as taking the largest limit, but return the controller of
  the first action when none is uncapped, even if that action is about something else
  (`ActionQueries.SpendStatesLimit`, `BuiltRoles.UnrelatedActionHidesLimit`).
- `programScopeLimit` and `programScopeRecurringLimit` are documented as limit scopes, but write the
  basic scope type, so the Rust SDK reads no limit from them (`BuiltScopes.BuiltScopesAreBasic`,
  `BuiltScopes.BuiltScopeReads`, `BuiltScopes.RustKeepsLimit`).
- The format comment in `getWebAuthnPrefix` puts each length in front of its field; the code writes
  the lengths of origin, tree and encoding first and the tree and the encoding after them. The two
  agree for no origin of up to 524280 characters (`PrefixFormats.FormatsAgree`,
  `PrefixFormats.ShortOriginsDiffer`, `PrefixFormats.OneCharacterOrigin`).
- The header that `ensureProgramAction` appends keeps the boundary 8 of a record that stands alone,
  not the combined length (`ActionQueries.EnsuredIsWellFormed`, `BuiltRoles.EnsuredManageAuthority`).

## Model

| member | source | states |
|---|---|---|
| `HuffmanTrees.SortSorts` | solana/typescript/packages/coder/src/utils/huffman.ts:30 | sorting by frequency gives a sorted permutation of the leaves |
| `HuffmanTrees.SortIsStable` | solana/typescript/packages/coder/src/utils/huffman.ts:30 | characters of equal frequency keep their order of first appearance, so the tree is determined |
| `HuffmanTrees.MergeLoopInvariant` | solana/typescript/packages/coder/src/utils/huffman.ts:32-53 | after any number of merges the list is sorted, its total frequency and its multiset of leaves are unchanged, and the inner frequencies created so far add up to the merges' cost |
| `HuffmanOptimality.MergeLoopOverText` | solana/typescript/packages/coder/src/utils/huffman.ts:24-53 | after n merges over a text the list is sorted and n shorter, its frequencies add up to the text's length, and its leaves are the frequency table |
| `HuffmanTrees.HuffmanTreeFacts` | solana/typescript/packages/coder/src/utils/huffman.ts:15-58 | the final tree has exactly one leaf per distinct character, weighted with its count, after k - 1 merges |
| `HuffmanOrder.TreeIsInOrder` | solana/typescript/packages/coder/src/utils/huffman.ts:30-58 | at every inner node the left side is the lighter one; of equally heavy sides a leaf on the left has a leaf on the right, seen later |
| `HuffmanOrder.KeysByAppearance` | solana/typescript/packages/coder/src/utils/huffman.ts:16-27 | the frequency table's keys, and with them the leaves before sorting, stand in order of first appearance |
| `HuffmanOrder.TwoKinds` | solana/typescript/packages/coder/src/utils/huffman.ts:30-73 | for every text of two distinct characters: the whole tree and both codes, the rarer character having the bit 0 and, when equally frequent, the first seen |
| `HuffmanOrder.TwiceAOnceB` | solana/typescript/packages/coder/src/utils/huffman.ts:15-120 | aab: the code table, the nine tree bytes, and the encoding C0 |
| `HuffmanOrder.OnceBOnceA` | solana/typescript/packages/coder/src/utils/huffman.ts:15-95 | ba: equally frequent, so b has the bit 0 |
| `HuffmanCodes.CodesPrefixFree` | solana/typescript/packages/coder/src/utils/huffman.ts:60-73 | the code table covers exactly the characters of the text, no code is empty and none is a prefix of another |
| `HuffmanCodes.CodesComplete` | solana/typescript/packages/coder/src/utils/huffman.ts:60-73 | the sum of 2^-length over all codes is exactly 1 (1/2 for a lone character) |
| `HuffmanCodes.TextCode` | solana/typescript/packages/coder/src/utils/huffman.ts:60-73 | each code is the path to its character's leaf, or the single bit 0 when the root is the leaf |
| `HuffmanOptimality.MergeLoopIsOptimal` | solana/typescript/packages/coder/src/utils/huffman.ts:32-53 | the merge loop pays no more than any arrangement of its trees at the leaves of any binary tree |
| `HuffmanOptimality.TreeCostsNoLess` | solana/typescript/packages/coder/src/utils/huffman.ts:15-58 | no binary tree with the same weighted leaves has a smaller sum of frequency times depth |
| `HuffmanOptimality.BitCountIsMergedFreqs` | solana/typescript/packages/coder/src/utils/huffman.ts:24-58 | for two or more distinct characters the encoded bit count is the sum of all merged frequencies |
| `HuffmanOptimality.HuffmanIsOptimal` | solana/typescript/packages/coder/src/utils/huffman.ts:15-58 | for two or more distinct characters, no prefix-free code over them encodes the text in fewer bits |
| `HuffmanOptimality.LoneSymbolIsOptimal` | solana/typescript/packages/coder/src/utils/huffman.ts:60-63 | a lone character costs one bit per occurrence, the least a code without empty words can do |
| `BitPacking.UnpackPack` | solana/typescript/packages/coder/src/utils/huffman.ts:107-119 | unpacking the bytes gives the bits back, most significant first, followed by fewer than eight zeros |
| `TreeBytes.FlatTreeDeterminesTree` | solana/typescript/packages/coder/src/utils/huffman.ts:75-95 | rebuilding from the last node gives the whole tree back |
| `TreeBytes.RecordsChildrenFirst` | solana/typescript/packages/coder/src/utils/huffman.ts:81-95 | every stored child index is strictly below its parent's |
| `TreeBytes.TreeDataSize` | solana/typescript/packages/coder/src/utils/huffman.ts:75-95 | k distinct characters take 3 * (2k - 1) bytes |
| `TreeBytes.TruncationIsLossless` | solana/typescript/packages/coder/src/utils/huffman.ts:75-79 | the Uint8Array keeps every number exactly when there are at most 129 leaves and all characters are below 256 |
| `HuffmanDecoding.DecodeNeverThrows` | solana/typescript/packages/coder/src/utils/huffman.ts:126-194 | for every text, every byte array and every requested length, decode reaches none of its error branches |
| `HuffmanDecoding.BytesAreBits` | solana/typescript/packages/coder/src/utils/huffman.ts:139-191 | the nested loops over bytes and bits are one run over all bits when the inner loop is left early in the last byte at most |
| `HuffmanDecoding.DecodeLaw` | solana/typescript/packages/coder/src/utils/huffman.ts:97-194 | for an encoder built on a text with at most 129 distinct characters, all below 256, and any non-empty characters of this text: decode(encode(other), length) is other, or other without its last character when the bits fill the last byte and the text has two or more distinct characters |
| `HuffmanDecoding.LastCharacterLost` | solana/typescript/packages/coder/src/utils/huffman.ts:156-164 | eight characters over two symbols come back as seven |
| `HuffmanArrival.BytesDetermineText` | solana/typescript/packages/coder/src/utils/huffman.ts:75-120 | a reader that emits on arrival recovers any characters of an encodable text (at most 129 distinct characters, all below 256) from tree bytes, bit bytes and length |
| `HuffmanArrival.EncodingNeverLonger` | solana/typescript/packages/coder/src/utils/huffman.ts:97-120 | a one-byte-per-character text never grows |
| `HuffmanLimits.LostCharacter` | solana/typescript/packages/coder/src/utils/huffman.ts:75-79 | a tree with more than 129 leaves has a character that no walk over the stored bytes can reach |
| `HuffmanLimits.DecodeReturnsText` | solana/typescript/packages/coder/src/utils/huffman.ts:15-194 | for every non-empty text: decode(encode(text)) is the text if and only if it has at most 129 distinct characters, all below 256, and its bits do not fill the last byte or it has one distinct character |
| `HuffmanLimits.ArrivalReturnsText` | solana/typescript/packages/coder/src/utils/huffman.ts:15-120 | for every non-empty text: the reader that emits on arrival recovers it if and only if it has at most 129 distinct characters, all below 256 |
| `HuffmanRequests.DecodeFewer` | solana/typescript/packages/coder/src/utils/huffman.ts:126-194 | for an encodable text with two or more distinct characters, asked for fewer characters of it than were encoded, but at least one: the output starts with these, and is exactly them if and only if no code word ends before the last of the bits behind the byte in which the last of them is emitted |
| `HuffmanRequests.DecodeMore` | solana/typescript/packages/coder/src/utils/huffman.ts:126-194 | for an encodable text with two or more distinct characters, asked for more characters of it than were encoded: the last one is lost when the bits fill the last byte; otherwise the output starts with all of them, and has no more if and only if no code word ends before the last of the padding's bits |
| `HuffmanRequests.DecodeLoneRequest` | solana/typescript/packages/coder/src/utils/huffman.ts:156-178 | in the code of an encodable text with one distinct character, that character comes back once per bit asked for and once more for every byte left over |
| `HuffmanRequests.DecodeLoneExact` | solana/typescript/packages/coder/src/utils/huffman.ts:156-178 | in the code of an encodable text with one distinct character, the exact condition for any requested number to give just the copies asked for, or just those encoded |
| `HuffmanRequests.DecodeNothing` | solana/typescript/packages/coder/src/utils/huffman.ts:158-165 | for any stored tree and bytes, asking for none or fewer is asking for one character |
| `HuffmanRequests.ResumeBehindBreak` | solana/typescript/packages/coder/src/utils/huffman.ts:141-165 | leaving the loop over one byte's bits resumes at the next byte with the same output |
| `HuffmanRequests.OneTooMany` | solana/typescript/packages/coder/src/utils/huffman.ts:141-165 | one of nine equal characters asked for: two come back |
| `HuffmanCounts.DecodeAtMost` | solana/typescript/packages/coder/src/utils/huffman.ts:139-191 | for any stored tree, bytes and requested length: at most one character per bit, and at most one per byte beyond those asked for |
| `HuffmanCounts.LoneGivesMost` | solana/typescript/packages/coder/src/utils/huffman.ts:156-178 | from the same bytes and for the same request, no stored tree gives more characters than the tree of a lone one, which meets the bound |
| `HuffmanCounts.FewKindsFewer` | solana/typescript/packages/coder/src/utils/huffman.ts:139-191 | for an encodable text with two to eight distinct characters: a request for fewer characters than were encoded gives exactly these if and only if the last of them ends in the last byte |
| `HuffmanCounts.SecondByteAddsOne` | solana/typescript/packages/coder/src/utils/huffman.ts:141-165 | nine characters over two symbols, one of them asked for: two come back |
| `HuffmanCounts.PaddingAddsOne` | solana/typescript/packages/coder/src/utils/huffman.ts:141-165 | four characters over two symbols, five asked for: the padding spells a fifth |
| `HuffmanOtherTexts.SkipsUnknown` | solana/typescript/packages/coder/src/utils/huffman.ts:97-105 | encoding any other text is encoding those of its characters that have a code |
| `HuffmanOtherTexts.DecodeReturnsOther` | solana/typescript/packages/coder/src/utils/huffman.ts:97-194 | for an encoder built on an encodable text and every other text: decode(encode(other), length) is other if and only if all its characters have codes and it is empty, its bits do not fill the last byte, or there is one code only |
| `HuffmanOtherTexts.ArrivalReturnsOther` | solana/typescript/packages/coder/src/utils/huffman.ts:75-120 | for an encoder built on an encodable text and every other text: the reader that emits on arrival recovers it if and only if all its characters have codes |
| `HuffmanEncoder.HuffmanEncoder.constructor` | solana/typescript/packages/coder/src/utils/huffman.ts:15-58 | leaves behind the code table and the tree bytes of the text |
| `HuffmanEncoder.HuffmanEncoder.CountFrequencies` | solana/typescript/packages/coder/src/utils/huffman.ts:16-21 | keys in order of first appearance, each with its number of occurrences |
| `HuffmanEncoder.HuffmanEncoder.MergeAll` | solana/typescript/packages/coder/src/utils/huffman.ts:32-55 | the loop of shifts and insertions computes the tree of all merges |
| `HuffmanEncoder.HuffmanEncoder.InsertSorted` | solana/typescript/packages/coder/src/utils/huffman.ts:41-52 | splices the tree in front of the first one that is at least as heavy, or pushes it |
| `HuffmanEncoder.HuffmanEncoder.BuildCodes` | solana/typescript/packages/coder/src/utils/huffman.ts:60-73 | adds the codes of exactly the characters below the node |
| `HuffmanEncoder.HuffmanEncoder.SerializeNode` | solana/typescript/packages/coder/src/utils/huffman.ts:81-95 | appends the records in post-order and returns the node's index |
| `HuffmanEncoder.HuffmanEncoder.Encode` | solana/typescript/packages/coder/src/utils/huffman.ts:97-120 | the packed codes of the text; characters without a code are skipped |
| `HuffmanEncoder.HuffmanEncoder.ToBytes` | solana/typescript/packages/coder/src/utils/huffman.ts:107-119 | the packing loop computes the packed bytes |
| `HuffmanEncoder.HuffmanEncoder.Decode` | solana/typescript/packages/coder/src/utils/huffman.ts:126-194 | the loop over the bytes computes the decoder's run over the stored tree, with the same errors |
| `HuffmanEncoder.HuffmanEncoder.DecodeByte` | solana/typescript/packages/coder/src/utils/huffman.ts:143-190 | the loop over the bits of one byte computes the run over them, and tells how it ended |
| `HuffmanEncoder.HuffmanEncoder.DecodeBit` | solana/typescript/packages/coder/src/utils/huffman.ts:144-189 | the loop's body computes one step: emit, descend, break or throw |
| `WebAuthnPrefix.ClientDataFieldOrder` | solana/typescript/packages/lib/src/wallet.ts:211-231 | codes of the first four keys in order, zero for unknown or missing ones |
| `WebAuthnPrefix.OrderTellsKeys` | solana/typescript/packages/lib/src/wallet.ts:211-231 | a reader with the table 1 type, 2 challenge, 3 origin, 4 crossOrigin recovers the first four keys from the order bytes, a zero standing exactly for an unknown or missing one |
| `WebAuthnPrefix.UsualKeys` | solana/typescript/packages/lib/src/wallet.ts:211-231 | type, challenge, origin, crossOrigin are 1, 2, 3, 4 |
| `WebAuthnPrefix.GetWebAuthnPrefix` | solana/typescript/packages/lib/src/wallet.ts:131-209 | fails exactly where decoding and parsing the client data throws, or where the origin is missing, empty or not a string; otherwise the buffer holds the fields one after another, and the four bytes behind the authenticator data tell a reader the first four keys |
| `WebAuthnPrefix.LayOut` | solana/typescript/packages/lib/src/wallet.ts:166-208 | a fresh buffer of the nine fields one after another, the lengths of origin, tree and encoding in front of tree and encoding, and nothing more |
| `WebAuthnPrefix.ReadLaidOut` | solana/typescript/packages/lib/src/wallet.ts:158-208 | a reader of the layout recovers every field whose length fits 16 bits |
| `WebAuthnPrefix.PrefixLengthsFit` | solana/typescript/packages/lib/src/wallet.ts:166-201 | for an encodable origin below 64 Ki all three written lengths fit 16 bits |
| `WebAuthnPrefix.PrefixDeterminesOrigin` | solana/typescript/packages/lib/src/wallet.ts:131-209 | the prefix alone gives back all fields and the origin if and only if the origin is encodable and both it and the authenticator data are shorter than 64 Ki |
| `PrefixFormats.FormatsAgree` | solana/typescript/packages/lib/src/wallet.ts:158-208 | for every non-empty origin: what is written has the format of the comment if and only if the origin repeats one character whose low byte is zero and the low 16 bits of the encoding's length are zero |
| `PrefixFormats.ShortOriginsDiffer` | solana/typescript/packages/lib/src/wallet.ts:158-208 | no origin of up to 524280 characters is written in the format of the comment |
| `PrefixFormats.FormatsMeet` | solana/typescript/packages/lib/src/wallet.ts:158-208 | the bound is exact: 524281 zero characters are |
| `PrefixFormats.OneCharacterOrigin` | solana/typescript/packages/lib/src/wallet.ts:158-208 | the bytes written for the origin a, and those that the comment promises |
| `StructCodecs.StructRoundTrip` | solana/typescript/packages/lib/src/actions/payload.ts:157-261 | decoding the encoded fields gives them back, whatever bytes follow |
| `ActionCodec.HeaderRoundTrip` | solana/typescript/packages/coder/src/types/actionHeader.ts:23-41 | a header that can be encoded is decoded unchanged from the front of any bytes |
| `ActionCodec.DeserializeActions` | solana/typescript/packages/lib/src/actions/action.ts:298-324 | the cursor loop computes the recursive parse, including its failures |
| `PayloadBytes.FieldsAtOffsets` | solana/typescript/packages/lib/src/actions/payload.ts:125-264 | for every kind and all bytes: exactly which payloads are accepted, and every field as the number, key or flag at its own offset |
| `SpentLimits.RecordParses` | solana/typescript/packages/lib/src/actions/action.ts:298-324 | a record can be parsed if and only if it has a header with a known code and an accepted payload |
| `SpentLimits.RecordsFollow` | solana/typescript/packages/lib/src/actions/action.ts:298-324 | in every parsed buffer each record starts where the one before it says that it ends |
| `SpentLimits.ControlIsStored` | solana/typescript/packages/lib/src/actions/action.ts:298-324 | for every record of every buffer and every asset: the controller is the one its bytes state, for a refilling limit with the stored amount that is left, window, last reset and full amount |
| `SpentLimits.PartlySpent` | solana/typescript/packages/lib/src/actions/control.ts:55-85 | for all stored values of a recurring SOL limit: the limit is what is left, and an amount may be spent if and only if that much is left |
| `SpentLimits.ThreeHundredLeft` | solana/typescript/packages/lib/src/actions/control.ts:55-85 | with 300 of 1000 left, 300 may be spent and 500 may not |
| `SpentLimits.LockIsStored` | solana/typescript/packages/lib/src/actions/action.ts:133-139 | the longest lock of a record is the word it stores, for code 27 and no other |
| `SpentLimits.ProgramIsStored` | solana/typescript/packages/lib/src/actions/action.ts:157-159 | a record allows a program if and only if its code is 7, 13, 14 or 15, or is 3 and the stored key is the program's |
| `ActionsBuilder.ConfigsAreSound` | solana/typescript/packages/lib/src/actions/builder.ts:87-510 | every config that a builder method pushes states the true size of its payload and has the fields of its layout |
| `ActionsBuilder.EncodeWithHeader` | solana/typescript/packages/lib/src/actions/builder.ts:515-543 | header and payload in one buffer of the stated length, or the encoder's failure |
| `ActionsBuilder.ActionsBuilder.Add` | solana/typescript/packages/lib/src/actions/builder.ts:87-510 | appends the call's config, or throws and leaves the builder unchanged |
| `ActionsBuilder.ActionsBuilder.Data` | solana/typescript/packages/lib/src/actions/builder.ts:58-69 | the buffer holds the records of all configs with absolute end offsets |
| `ActionsBuilder.ActionsBuilder.Get` | solana/typescript/packages/lib/src/actions/builder.ts:75-78 | parses what was laid out |
| `ActionsBuilder.PayloadRoundTrip` | solana/typescript/packages/lib/src/actions/payload.ts:125-264 | the payload decoder gives back the payload that the config encoded |
| `ActionsBuilder.BuiltActionsParse` | solana/typescript/packages/lib/src/actions/action.ts:298-324 | parsing a built buffer gives the configs' permissions and payloads in order, each ending where the next begins |
| `ActionsBuilder.BuildSucceeds` | solana/typescript/packages/lib/src/actions/builder.ts:58-85 | building succeeds exactly when every payload is in range and the total size is below 2^32; the buffer then has bufferLength bytes |
| `ActionsBuilder.BoundariesIncrease` | solana/typescript/packages/lib/src/actions/builder.ts:58-69 | boundaries strictly increase and the last one is the buffer length |
| `BuilderCalls.CallEncodes` | solana/typescript/packages/lib/src/actions/builder.ts:545-960 | a pushed config can be encoded exactly when the arguments of its call fit their wire fields |
| `BuilderCalls.ThrowsExactly` | solana/typescript/packages/lib/src/actions/builder.ts:87-510 | a builder method throws exactly for rentDestination, an id outside 32 bits, and a lock of 0 or of 64 bits and more |
| `BuiltPayloads.PayloadWritten` | solana/typescript/packages/lib/src/actions/builder.ts:545-960 | for every call whose arguments fit: its payload, byte for byte in the order of the wire |
| `BuiltPayloads.RecordWritten` | solana/typescript/packages/lib/src/actions/builder.ts:515-543 | the whole record of such a call: code, payload length, end of the record, payload |
| `BuilderCalls.Build` | solana/typescript/packages/lib/src/actions/builder.ts:45-85 | for every sequence of calls: get succeeds if and only if no call throws, all arguments fit and the total is below 2^32; the parsed actions are then those of the calls, in order |
| `SpendControl.DecodedIsTyped` | solana/typescript/packages/lib/src/actions/payload.ts:173-225 | a decoded struct has every field of its layout, in range |
| `ActionQueries.ParsedLimitsAreTyped` | solana/typescript/packages/lib/src/actions/action.ts:298-324 | the fields that spend queries read are there in every parsed limit action |
| `ActionQueries.QuerySpendLimit` | solana/typescript/packages/lib/src/actions/action.ts:193-207 | null if some action is uncapped, otherwise the maximum, for SOL and for a mint |
| `ActionQueries.QuerySpend` | solana/typescript/packages/lib/src/actions/action.ts:213-227 | the controller of the first uncapped action, otherwise of the first action of all, otherwise none; it is uncapped exactly when the limit is, never exceeds the limit, and equals it if and only if some action is uncapped or the first limit is the largest |
| `ActionQueries.CanSpendIffWithinLimit` | solana/typescript/packages/lib/src/actions/action.ts:183-207 | for a positive amount, canSpend(amount) if and only if the spend limit is null or at least the amount |
| `ActionQueries.CanSpendMaxIffUncapped` | solana/typescript/packages/lib/src/actions/action.ts:173-207 | canSpendMax if and only if the spend limit is null |
| `ActionQueries.CanSpendNothing` | solana/typescript/packages/lib/src/actions/control.ts:45-53 | no amount and amount 0 ask the same question, which any allowed positive amount answers with yes |
| `ActionQueries.LimitOfConcatenation` | solana/typescript/packages/lib/src/actions/action.ts:193-207 | the limit of two lists together is the larger of their limits, null on top |
| `ActionQueries.SpendNeverExceedsLimit` | solana/typescript/packages/lib/src/actions/action.ts:213-227 | the spend controller is uncapped exactly when the limit is, and never promises more than the limit |
| `ActionQueries.SpendStatesLimit` | solana/typescript/packages/lib/src/actions/action.ts:213-227 | the spend controller states the limit if and only if some action is uncapped or the first action's limit is the largest |
| `ActionQueries.AuthorizationLockMaxDurationSlots` | solana/typescript/packages/lib/src/actions/action.ts:133-139 | the value of the first lock action, null exactly when there is none |
| `ActionQueries.EnsureProgramAction` | solana/typescript/packages/lib/src/actions/action.ts:23-50 | builds, appends and reparses ProgramAll unless the role is root or has a program action |
| `ActionQueries.EnsuredKeepsOldActions` | solana/typescript/packages/lib/src/actions/action.ts:23-50 | on a well-formed value: unchanged with a program action, otherwise the old list followed by ProgramAll with boundary 8, the old bytes being a prefix |
| `ActionQueries.EnsuringTwiceIsOnce` | solana/typescript/packages/lib/src/actions/action.ts:23-50 | the result always has a program action, and a second call changes nothing |
| `ActionQueries.EnsuredChangesOnlyPrograms` | solana/typescript/packages/lib/src/actions/action.ts:23-50 | spend limits stay the same, and every program can be used if and only if the action was added or it could be used before |
| `ActionQueries.EnsuredIsWellFormed` | solana/typescript/packages/lib/src/actions/action.ts:23-50 | the result is well formed again if and only if nothing was appended or nothing stood before it: elsewhere the appended boundary 8 is not the buffer's end |
| `ActionQueries.BuiltIsWellFormed` | solana/typescript/packages/lib/src/actions/builder.ts:75-78 | everything the builder makes is such a well-formed value |
| `BuiltRoles.BuiltSpendLimit` | solana/typescript/packages/lib/src/actions/builder.ts:364-510 | the spend limit of a built role is the largest amount that any of its calls grants for the asset |
| `BuiltRoles.UnrelatedActionHidesLimit` | solana/typescript/packages/lib/src/actions/action.ts:213-227 | programAll().solLimit({ amount }) builds a role whose limit allows the amount while its spend controller denies any spending |
| `BuiltRoles.RecurringStartsFull` | solana/typescript/packages/lib/src/actions/builder.ts:374-420 | a built recurring limit starts full, with the call's window and no reset |
| `BuiltRoles.BuiltPrograms` | solana/typescript/packages/lib/src/actions/action.ts:157-159 | a built role can use a program if and only if one of its calls allows it |
| `BuiltRoles.EnsuredBuiltRole` | solana/typescript/packages/lib/src/actions/action.ts:23-50 | for every sequence of calls that builds: after ensureProgramAction the role is well formed if and only if one of its calls gave a program action, or there was none |
| `BuiltRoles.EnsuredManageAuthority` | solana/typescript/packages/lib/src/actions/action.ts:23-50 | after manageAuthority() alone the added record claims to end at byte 8 of 16, and the value is not well formed |
| `BuiltScopes.BuiltScopesAreBasic` | solana/typescript/packages/lib/src/actions/builder.ts:222-305 | every program scope of a built role has the basic scope type, which is the documented one if and only if the call was programScopeBasic |
| `BuiltScopes.BuiltScopeReads` | solana/rust/sdk/src/types.rs:565-586 | for all amounts and windows that fit: from_role reads a built scope as one without limit and window |
| `BuiltScopes.RustKeepsLimit` | solana/rust/sdk/src/types.rs:311-341 | the Rust translation of the same arguments stores the documented type and reads limit and window back, so both SDKs' scopes read alike if and only if the scope is basic |
| `BuiltScopes.ScopesStartApart` | solana/typescript/packages/lib/src/actions/builder.ts:222-305 | a built limit scope starts with its current amount at the limit, a translated one at zero, and both are the same stored action if and only if the scope is basic |
| `RolePermissions.ActionTypeIsWireCode` | solana/rust/sdk/src/types.rs:677-757 | to_action_type is the wire code of the action that the permission is stored as |
| `RolePermissions.ReadTranslated` | solana/rust/sdk/src/types.rs:203-592 | reading one stored permission gives its normal form: limit full, never reset, balance fields present |
| `RolePermissions.RestoreKeepsAction` | solana/rust/sdk/src/types.rs:203-656 | storing what was read gives the same action if and only if it was never used |
| `SdksAgree.SameKind` | solana/rust/sdk/src/types.rs:677-757 | the type number of a Rust permission is the code that the builder writes for the same call |
| `SdksAgree.SameAction` | solana/rust/sdk/src/types.rs:200-392 | for every fitting call other than scopes, sub-accounts, locks and closing: the Rust SDK stores the same kind and the same fields as the builder, whatever state the caller's recurring config names |
| `RoleReading.ToClientActions` | solana/rust/sdk/src/types.rs:200-392 | the loop translates in order and fails on the first permission that has no translation |
| `RoleReading.TranslationFails` | solana/rust/sdk/src/types.rs:320-327 | translation fails if and only if some ProgramScope has a window but no limit |
| `RoleReader.FromRole` | solana/rust/sdk/src/types.rs:403-675 | 25 blocks read the kinds in their fixed order; for any role, used or not, the permissions of each kind tell the stored fields of its entries one by one, all of repeatable kinds and the first of others; a role that cannot be read is an error |
| `UsedRoles.ReadRoleTells` | solana/rust/sdk/src/types.rs:403-675 | for any role: amount, window, last reset and what is left of every limit that is read are the stored ones, and every other field too |
| `UsedRoles.SameReadingSameAction` | solana/rust/sdk/src/types.rs:403-675 | two actions that are read as the same permission are the same action, program scopes aside |
| `UsedRoles.ReadInOrder` | solana/rust/sdk/src/types.rs:403-675 | the types of the permissions read from any role follow the order 7, 8, 21, 1, 2, 5, 6, 18, 19, 16, 17, 13, 14, 3, 4, 9, 22-26, 10, 11, 12, 15 |
| `RoleReading.StoredReadsBack` | solana/rust/sdk/src/types.rs:200-675 | reading the stored translation of any list gives its normal form |
| `RoleReading.NormaliseIsGrouped` | solana/rust/sdk/src/types.rs:403-675 | the normal form lists the kinds in reading order |
| `RoleReading.NormaliseIsStable` | solana/rust/sdk/src/types.rs:403-675 | within a kind the normal form keeps the order, all entries of repeatable kinds and the first of others |
| `RoleReading.NormaliseIsPermutation` | solana/rust/sdk/src/types.rs:403-675 | the normal form is a permutation of the individually normalised permissions if and only if no single kind occurs twice |
| `RoleReading.NormaliseTwice` | solana/rust/sdk/src/types.rs:403-675 | normalising is idempotent |
| `RoleReading.ReadRoleTranslates` | solana/rust/sdk/src/types.rs:200-675 | whatever a role holds, the permissions read from it can be stored again |
| `RoleReading.SecondRoundTrip` | solana/rust/sdk/src/types.rs:200-675 | a second round trip changes nothing |
| `RoleReading.RemovesWhatAddAdds` | solana/rust/sdk/src/types.rs:797-821 | removing by type names, entry by entry, the kinds that adding the same permissions stores |
| `RoleReading.UpdateIsPassedOn` | solana/rust/sdk/src/types.rs:797-821 | an update stays of its kind; replacing and adding fail exactly on a scope with a window but no limit, and what they store reads back as the normal form; indexes are passed on unchanged |
| `EvmPermissions.AddressIsCanonical` | evm/python/src/swig_evm/codec.py:16-23 | an accepted address word is the padded form of the address read from it |
| `EvmPermissions.EncodesExactlyValid` | evm/python/src/swig_evm/permissions.py:114-147 | encoding succeeds if and only if amounts fit 64 bits and recurring limits are valid |
| `EvmPermissions.EncodesInRange` | evm/python/src/swig_evm/permissions.py:17-29 | the ranges in numbers: 64-bit amounts, a window that is not zero, and no more left than granted |
| `EvmPermissions.DecodeEncoded` | evm/python/src/swig_evm/permissions.py:114-211 | decoding gives back every encoded permission |
| `EvmPermissions.EncodeDecoded` | evm/python/src/swig_evm/permissions.py:114-211 | encoding gives back every accepted action byte for byte, the reordered TokenRecurringLimit included |
| `EvmPermissions.AcceptsExactlyEncodings` | evm/python/src/swig_evm/permissions.py:154-211 | the decoder accepts exactly the image of the encoder |
| `SharedFormat.FormatIsShared` | evm/python/src/swig_evm/permissions.py:114-147 | every encodable EVM permission has the code and the payload of the Solana action with the same meaning, padded addresses standing for public keys |
| `EvmRust.AppendRecurring` | evm/rust/src/permissions.rs:108-115 | the vector grows by the four words of a valid limit, otherwise an error |
| `EvmRust.Encode` | evm/rust/src/permissions.rs:130-202 | appending computes the same action or failure as concatenating |
| `EvmRust.DecodersAgree` | evm/rust/src/permissions.rs:205-296 | the Rust decoder accepts the same actions as the Python one, with the same result |
| `EvmTypeScript.WriteUint64` | evm/typescript/src/codec.ts:53-64 | eight bytes change at the offset, or nothing changes and the call fails |
| `EvmTypeScript.ValidateRecurring` | evm/typescript/src/permissions.ts:102-115 | succeeds if and only if the limit is valid |
| `EvmTypeScript.WriteRecurring` | evm/typescript/src/permissions.ts:132-142 | writes the four words of a valid limit behind what the buffer holds |
| `EvmTypeScript.ReadAddressAt` | evm/typescript/src/codec.ts:33-42 | reads the canonical word at an offset |
| `EvmTypeScript.EncodePermission` | evm/typescript/src/permissions.ts:156-230 | writing at offsets computes the same action or failure as concatenating |
| `EvmTypeScript.DecodePermission` | evm/typescript/src/permissions.ts:233-324 | the TypeScript decoder accepts the same actions as the Python one, with the same result |
| `PackedOperations.OrOfDisjoint` | evm/rust/src/smart_account.rs:245 | shifting and or-ing numbers without a common bit is adding |
| `PackedOperations.PackGasIsTwoWords` | evm/rust/src/smart_account.rs:241-246 | the big-endian bytes of (high << 128) or-ed with low are the two 16-byte words that Python concatenates, and both reject the same numbers |
| `PackedOperations.PackGasIsReadable` | evm/rust/src/smart_account.rs:241-246 | both halves can be read back |
| `PackedOperations.PackUserOperation` | evm/rust/src/smart_account.rs:204-239 | without a paymaster signature Rust packs the same tuple as Python, or both fail |
| `PackedOperations.PackSucceeds` | evm/python/src/swig_evm/smart_account.py:62-97 | exactly which operations are packed: deployed, sponsored by a paymaster that is not zero, and all numbers in range |
| `PackedOperations.PackedKeepsFields` | evm/python/src/swig_evm/smart_account.py:87-97 | sender, nonce, call data, preVerificationGas and signature come through unchanged, each in its place |
| `PackedOperations.PackedIsSponsored` | evm/rust/src/smart_account.rs:123-128 | every packed operation passes the sponsorship check, and paymaster, its two gas limits and its data can be read back |
| `PackedOperations.PackedGasIsReadable` | evm/python/src/swig_evm/smart_account.py:81-97 | the four gas and fee values can be read back from the two words |
| `PackedOperations.SignatureInData` | evm/rust/src/smart_account.rs:201-204 | a paymaster signature given as an already encoded suffix of the paymaster data packs to the same tuple |
| `PackedOperations.SuffixIsReadable` | evm/python/src/swig_evm/smart_account.py:74-80 | the magic number 22e325a297439656, the length and the signature can be read from the end of the data |
| `Reservation.IndexSalts` | solana/typescript/packages/lib/src/reservation.ts:93-117 | different indexes give different salts, and index 0 the default one |
| `Reservation.IndexInSalt` | solana/typescript/packages/lib/src/reservation.ts:112-116 | an index stands in the last four salt bytes, lowest byte first, behind 28 zeros |
| `Reservation.OwnerTypes` | solana/typescript/packages/lib/src/reservation.ts:210-248 | owner types 1, 3 and 5 only; which keys each accepts, and that a raw 64-byte secp256k1 key is prefixed with 4 |
| `Reservation.PackageBytes` | solana/typescript/packages/lib/src/reservation.ts:117-124 | every field of a created package at its offset |
| `Reservation.ReservationV1.FromBytes` | solana/typescript/packages/lib/src/reservation.ts:52-87 | accepts exactly the bytes that pass the checks, and keeps a copy of its own |
| `Reservation.ReservationV1.Create` | solana/typescript/packages/lib/src/reservation.ts:90-125 | fails exactly on a bad key or bad address options; otherwise holds the laid out package, so its own constructor never throws |
| `Reservation.ReservationV1.ToBytes` | solana/typescript/packages/lib/src/reservation.ts:136-138 | a detached copy of the package |
| `Reservation.ReservationV1.CreateAndImport` | solana/typescript/packages/lib/src/reservation.ts:90-138 | fromBytes(create(a).toBytes()) succeeds for the same program exactly when create does, with the same bytes |
| `Reservation.ReservationV1.ImportAndExport` | solana/typescript/packages/lib/src/reservation.ts:128-138 | fromBytes(b).toBytes() gives the bytes b back whenever they are accepted |
| `Reservation.CreatedIsAccepted` | solana/typescript/packages/lib/src/reservation.ts:90-133 | a created package is accepted again for the same program |
| `Reservation.AcceptsExactlyCreated` | solana/typescript/packages/lib/src/reservation.ts:52-133 | the constructor accepts exactly the packages that create makes |
| `Reservation.EqualPackages` | solana/typescript/packages/lib/src/reservation.ts:90-125 | two packages are equal if and only if program, owner type, canonical key and effective salt agree |

## Left out

- HuffmanEncoder.HuffmanEncoder.constructor: requires a non-empty text, because on an empty one the original reads a property of `undefined` and throws; `getWebAuthnPrefix` never gets there.
- HuffmanEncoder.HuffmanEncoder.GetTreeData: returns the bytes as a value; the original hands out its own array, and a caller that writes into it is not modelled.
- HuffmanEncoder.HuffmanEncoder.Decode: returns the character codes; turning them into a string, and the limit of the call stack on very long ones, is not modelled.
- WebAuthnPrefix.GetWebAuthnPrefix: decoding and parsing the JSON is a function parameter, of which nothing is assumed; it also tells whether the origin is a string.
- BuiltScopes.BuiltScopeReads: takes the fields of the TypeScript payload for those of the `ProgramScope` of `swig_state`, whose layout is not part of this model; so do BuiltScopes.ScopesStartApart and SdksAgree.SameAction for the other kinds, matching fields by their meaning.
- RoleReading.FromRole: which bytes cannot be read as actions is decided by `swig_state`; here a role is either a list of actions or unreadable.
- ActionsBuilder.ActionsBuilder.Add: one method for the thirty builder methods, with the call as an argument; numbers are integers, so fractions and NaN are not modelled.
- EvmRust.Encode: error values are not told apart, only success and failure; the same holds for the other EVM codecs.
- EvmTypeScript.ReadAddressAt: reads twenty bytes; hexadecimal text and address checksums are not modelled.
- PackedOperations.PackUserOperation: requires that the fields which only the Python dictionary has are absent, and numbers below 2^256, as Rust's types do.
- Reservation.CreatedIsAccepted: takes the curve operations as parameters, assumed to give 32-byte Ed25519 keys and stable compressed SEC 1 points (SEC 1, sections 2.3.3 and 2.3.4).
- The struct, integer and enum codecs of the Solana kit library are modelled by their documented behaviour; the library is not part of this model.
- `swig_state` is not part of this model: reading one action of a kind is the first of that kind, reading all is an order-preserving filter.
- The array method `sort` is modelled as a stable sort by frequency.
- Base58 and hexadecimal strings are byte sequences, and comparing them is comparing bytes.
- `SwigWallet`, the odometer, RPC, transaction sending, bundlers, fetchers, browser credentials and generated ABIs are I/O around external programs.
- Curve arithmetic, hashing, PDA derivation and Solidity ABI encoding, and with them `encode_call`, `addresses` and the request part of `validate_user_operation`.
- Instruction structs, account lists and the decoders of CreateSession, RemoveAuthority and CompactInstruction: single-branch layouts.
- `createRecurringLimit`, `RecurringLimit::new` and the remaining one-line predicates of `Actions` would only add easy members.
