# Verified model of the mkpool solo mining pool

This project models the byte-level and protocol engine of the mkpool solo-mining pool and the share ingester of the
LoneStrike dashboard, and proves what they are for. `dafny verify dfyconfig.toml` checks all of it.

| files | what they model |
|---|---|
| `BitStrings`, `BitGroups`, `BitUnpacking` | machine words as bits, and the solution unpacking of `equihash.hpp` |
| `Equihash`, `EquihashVerifier`, `EquihashRules`, `WordNumbers` | the recursive Equihash definition, the row-by-row verifier that refines it, and the same rules stated block by block |
| `Numerals`, `Base58` | big-number base-58 decoding in a fixed accumulator |
| `BchCode`, `Polymod`, `AddressText`, `AddressResult`, `ConvertBits`, `Bech32`, `Segwit`, `CashAddr` | the checksummed address formats and their encoders |
| `PolymodReference`, `AddressStandards` | the same formats in the terms of their specifications, with checksums in machine arithmetic |
| `Hashing`, `Hex`, `MerkleTree`, `Merkle` | the merkle branch built without the coinbase |
| `ClusterProtocol`, `ClusterTrunk`, `ClusterIngest`, `ClusterSystem`, `ClusterGreeting`, `ClusterDelivery` | both halves of the cluster trunk, and all their interleavings over links that are lost and made again |
| `LittleEndian`, `Sv2Codec`, `Sv2Framing` | Stratum V2 frames, plain and encrypted |
| `LineReader` | newline framing |
| `Transactions`, `Coinbase`, `CoinbaseOutputs`, `AuxPow`, `CoinbaseScript` | the coinbase in two halves, its outputs, its witness form, and merge mining |
| `Options` | a value that may be missing |
| `DbWorker` | the batched database writer and round effort |
| `RateLimiter` | token buckets, connection counts and bans |
| `Target` | advertised targets, scores and comparisons |
| `ShareReplay` | the dashboard's share log ingester |

Conventions. Foreign calls are parameters: SHA-256d and BLAKE2b are arbitrary functions with outputs of the right length,
and the Noise transport is any counter-nonce cipher that unseals what was sealed under the same nonce with a 16-byte tag.
Clock samples are parameters of the methods. Quotients and percentages of doubles are taken exactly over the reals.
In the coinbase and merge-mining files hex text is modelled as the bytes it spells; `Hex` proves that text faithful.
Machine integers are written out where they can wrap (the 32-bit accumulators, the 64-bit output values, the 24-bit lengths).

Where the code does not meet a property, the exact condition is proved and a concrete input is given:

* `Coinbase.HeightReadsBack`, `Coinbase.HeightMisread`: the height push has no sign byte, so a height in [128, 256),
  [32768, 65536) or [2^23, 2^24) reads back wrongly.
* `CoinbaseOutputs.CoinbaseParses`, `CoinbaseOutputs.CommitmentUncounted`: an eCash job with a witness commitment would declare one output too few.
* `CoinbaseOutputs.CoinbaseConserves`, `CoinbaseOutputs.FundTooLarge`: value is conserved exactly when fund and staking fit in
  the template value; otherwise the outputs claim more.
* `DbWorker.EffortConserved`, `DbWorker.DuplicateLosesEffort`: a parent block already in the table resets the accumulator
  although its insert does nothing.
* `AuxPow.RebuiltAsSent`, `AuxPow.JobForgotten`, `AuxPow.ResentPlain`: a share is rebuilt with another commitment than its
  miner hashed after the map of announced work is emptied at its 258th entry (the job window is 32), and after a job is
  sent again plain, as every difficulty change does.
* `RateLimiter.LimitsExactly`, `RateLimiter.ZeroSampleRefills`: a clock sample of zero is taken for a new bucket.
* `Target.TargetMatchesScore`, `Target.TargetCut`: a difficulty so small that the target needs more than 32 bytes is cut.
* `ShareReplay.RestartMisses`: the round total is not saved, so a restart loses what had been counted.
* `CashAddr.PrefixError`: the CashAddr checksum covers only the low five bits of each prefix character.

The origin's refusals post a `bye` frame and then close the session at once; a closed session drops posted writes, so
the model, like the code, never puts a `bye` on the wire, although the protocol comment lists it.

## Model

| member | source | states |
|---|---|---|
| `BitUnpacking.ExpandArray` | seferogullari-yumlu-kripto-madencilik/mkpool-src/src/equihash.hpp:57-89 | In bounds, the output array is exactly the complete `bit_len`-bit groups of the input, each zero-padded to its byte width, for every width from 8 to 25 and although the 32-bit accumulator is never masked |
| `BitUnpacking.AccumulatorByte` | seferogullari-yumlu-kripto-madencilik/mkpool-src/src/equihash.hpp:81-85 | A shifted and masked byte of the unmasked accumulator is the right byte of the zero-padded group: at most 7 unread bits lie below a group of at most 25 |
| `BitUnpacking.DeclaredLengthIsRoomy` | seferogullari-yumlu-kripto-madencilik/mkpool-src/src/equihash.hpp:63 | The asserted output length leaves room for every complete group |
| `BitUnpacking.GetIndicesFromMinimal` | seferogullari-yumlu-kripto-madencilik/mkpool-src/src/equihash.hpp:91-105 | The indices returned are the groups of the solution's bits as 32-bit words |
| `BitUnpacking.UnpackInvertsPack` | seferogullari-yumlu-kripto-madencilik/mkpool-src/src/equihash.hpp:91-105 | Unpacking inverts minimal packing of any list of indices that fit |
| `BitUnpacking.PackInvertsUnpack` | seferogullari-yumlu-kripto-madencilik/mkpool-src/src/equihash.hpp:91-105 | Packing the unpacked indices gives the solution back when its bits divide evenly into groups |
| `BitUnpacking.UnpackInjective` | seferogullari-yumlu-kripto-madencilik/mkpool-src/src/equihash.hpp:91-105 | Two solutions of whole groups with the same indices are the same bytes |
| `EquihashVerifier.StepRow.constructor` | seferogullari-yumlu-kripto-madencilik/mkpool-src/src/equihash.hpp:108-113 | A fresh row is all zero |
| `EquihashVerifier.StepRow.Init` | seferogullari-yumlu-kripto-madencilik/mkpool-src/src/equihash.hpp:115-119 | The row starts with the expanded half digest followed by the index, most significant byte first |
| `EquihashVerifier.StepRow.InitCollide` | seferogullari-yumlu-kripto-madencilik/mkpool-src/src/equihash.hpp:121-132 | The row starts with the exclusive or of the two hashes less the trimmed bytes, then both index lists, the smaller first |
| `EquihashVerifier.StepRow.IsZero` | seferogullari-yumlu-kripto-madencilik/mkpool-src/src/equihash.hpp:134-139 | True exactly when the first bytes are all zero |
| `EquihashVerifier.DistinctIndices` | seferogullari-yumlu-kripto-madencilik/mkpool-src/src/equihash.hpp:142-151 | True exactly when no index occurs in both halves |
| `EquihashVerifier.CollidePair` | seferogullari-yumlu-kripto-madencilik/mkpool-src/src/equihash.hpp:218-229 | The three byte tests pass exactly when the joined index list is a valid node one level up (section 7.7.1 of the Zcash Protocol Specification), and then the new row represents it with its leaves in their original order |
| `EquihashVerifier.Round` | seferogullari-yumlu-kripto-madencilik/mkpool-src/src/equihash.hpp:214-231 | One halving of the row vector succeeds exactly when all nodes of the next level are valid, and then represents that level |
| `EquihashVerifier.VerifyRounds` | seferogullari-yumlu-kripto-madencilik/mkpool-src/src/equihash.hpp:213-237 | For every K, the loop accepts exactly the solutions of the recursive definition: collisions on 20 bits a level, index order and disjoint halves at every node, and a zero total |
| `EquihashVerifier.Verify2009` | seferogullari-yumlu-kripto-madencilik/mkpool-src/src/equihash.hpp:153-238 | A header and a solution are accepted exactly when the solution has 1344 bytes, 512 indices, and those satisfy the recursive definition for K = 9 under the digests of the header; accepted indices are 512 and distinct |
| `EquihashVerifier.PairOfDigests` | seferogullari-yumlu-kripto-madencilik/mkpool-src/src/equihash.hpp:201-206 | Every 50-byte BLAKE2b output serves two indices: for half their number stored little-endian behind the header, the even index has its first 200 bits and the odd index the rest |
| `EquihashRules.SolutionIs` | seferogullari-yumlu-kripto-madencilik/mkpool-src/src/equihash.hpp:213-237 | A solution is exactly: distinct indices, digests that cancel on every bit, and for every aligned block of 2^s indices digests that cancel on 20s bits and a first half led by a smaller number than the second |
| `EquihashRules.NodeIs` | seferogullari-yumlu-kripto-madencilik/mkpool-src/src/equihash.hpp:218-229 | The same for every node of the tree |
| `EquihashRules.XorIsParity` | seferogullari-yumlu-kripto-madencilik/mkpool-src/src/equihash.hpp:121-132 | Bit b of an exclusive or is set exactly when it is set in an odd number of the digests |
| `EquihashRules.IndexNumber` | seferogullari-yumlu-kripto-madencilik/mkpool-src/src/equihash.hpp:91-105 | Index i is the number that bits 21i to 21i + 20 of the solution stand for |
| `WordNumbers.LessIsNumeric` | seferogullari-yumlu-kripto-madencilik/mkpool-src/src/equihash.hpp:221-223 | Comparing words bit by bit is comparing the numbers they stand for |
| `EquihashVerifier.SolutionDistinct` | seferogullari-yumlu-kripto-madencilik/mkpool-src/src/equihash.hpp:142-151 | No index occurs twice in a solution |
| `EquihashVerifier.RowFits` | seferogullari-yumlu-kripto-madencilik/mkpool-src/src/equihash.hpp:108-109 | No row outgrows 6 + 4 * 2^K bytes in any round |
| `EquihashVerifier.RootNodes` | seferogullari-yumlu-kripto-madencilik/mkpool-src/src/equihash.hpp:213-231 | A valid root makes every node of every lower level valid |
| `EquihashVerifier.RootFlatten` | seferogullari-yumlu-kripto-madencilik/mkpool-src/src/equihash.hpp:228-231 | Pairwise merging down to one row leaves the indices in their original order |
| `Equihash.NodeDistinct` | seferogullari-yumlu-kripto-madencilik/mkpool-src/src/equihash.hpp:142-151 | In a valid node all 2^r indices are distinct |
| `Equihash.CollisionTest` | seferogullari-yumlu-kripto-madencilik/mkpool-src/src/equihash.hpp:218-220 | Comparing three bytes of two rows decides the next 20 bits of the exclusive or of all their leaves' digests |
| `Equihash.FinalTest` | seferogullari-yumlu-kripto-madencilik/mkpool-src/src/equihash.hpp:237 | The last row is zero exactly when all digest bits cancel |
| `Equihash.MemcmpIndices` | seferogullari-yumlu-kripto-madencilik/mkpool-src/src/equihash.hpp:221-223 | Comparing index lists as bytes is comparing them as lists of numbers |
| `Base58.MultiplyAdd` | seferogullari-yumlu-kripto-madencilik/mkpool-src/src/address.cpp:89-93 | One digit multiplies the big-endian accumulator by 58 and adds, with the overflow returned as carry |
| `Base58.Roomy` | seferogullari-yumlu-kripto-madencilik/mkpool-src/src/address.cpp:84 | 58^n < 256^(floor(733n/1000) + 1) for every n, so the accumulator never overflows |
| `Base58.Base58Decode` | seferogullari-yumlu-kripto-madencilik/mkpool-src/src/address.cpp:72-102 | BadCharacter exactly for a character outside the alphabet, never BadLength; otherwise one zero byte per leading '1' and then the shortest base-256 form of the base-58 value |
| `Base58.EncodeDecoded` | seferogullari-yumlu-kripto-madencilik/mkpool-src/src/address.cpp:72-102 | Encoding what was decoded gives the text back, so decoding is injective |
| `Base58.DecodeEncoded` | seferogullari-yumlu-kripto-madencilik/mkpool-src/src/address.cpp:72-102 | Decoding inverts encoding on every byte string |
| `Base58.Alphabet` | seferogullari-yumlu-kripto-madencilik/mkpool-src/src/address.cpp:69-70 | The 58 characters in order |
| `Base58.KnownText` | seferogullari-yumlu-kripto-madencilik/mkpool-src/src/address.cpp:72-102 | 112g spells the bytes 0, 0, 97: each leading 1 is a zero byte, and the first digit is the higher |
| `BchCode.RunXor` | seferogullari-yumlu-kripto-madencilik/mkpool-src/src/address.cpp:120-131 | The checksum register is linear over GF(2) for all generators that make a code, as both sets in the source do |
| `BchCode.StepInjective` | seferogullari-yumlu-kripto-madencilik/mkpool-src/src/address.cpp:120-131 | A step on a fixed symbol is injective when the low symbols of the generators are independent |
| `BchCode.RunInjective` | seferogullari-yumlu-kripto-madencilik/mkpool-src/src/address.cpp:120-131 | A run over a fixed list of symbols is injective in the register |
| `BchCode.SingleChange` | seferogullari-yumlu-kripto-madencilik/mkpool-src/src/address.cpp:120-131 | Changing exactly one symbol, anywhere in a list of any length, changes the result |
| `BchCode.ChecksumUnique` | seferogullari-yumlu-kripto-madencilik/mkpool-src/src/address.cpp:120-131 | Exactly one list of n/5 symbols takes the register to a given target |
| `Polymod.Bech32IsCode` | seferogullari-yumlu-kripto-madencilik/mkpool-src/src/address.cpp:121-122 | The bech32 generators satisfy the independence condition |
| `Polymod.CashAddrIsCode` | seferogullari-yumlu-kripto-madencilik/mkpool-src/src/address.cpp:238-241 | The CashAddr generators satisfy the independence condition |
| `Polymod.ApplyTaps` | seferogullari-yumlu-kripto-madencilik/mkpool-src/src/address.cpp:127-128 | The inner loop adds the generators selected by the top symbol |
| `Polymod.Compute` | seferogullari-yumlu-kripto-madencilik/mkpool-src/src/address.cpp:237-250 | The polymod loops in a 32- or 64-bit word compute the register, and the bits above it stay zero |
| `Polymod.SingleValueChange` | seferogullari-yumlu-kripto-madencilik/mkpool-src/src/address.cpp:237-250 | Changing one value below 32 changes the checksum, in either code |
| `Polymod.UniqueChecksum` | seferogullari-yumlu-kripto-madencilik/mkpool-src/src/address.cpp:237-250 | Every list of values has exactly one completing checksum for every target |
| `PolymodReference.NextIs` | seferogullari-yumlu-kripto-madencilik/mkpool-src/src/address.cpp:125-129 | One step of the loops in machine arithmetic, with the generators as 30- and 40-bit integers, is one step of the register |
| `PolymodReference.ChecksumIs` | seferogullari-yumlu-kripto-madencilik/mkpool-src/src/address.cpp:237-250 | The register of the model reaches a target exactly when the loops in machine arithmetic compute it, for both codes and every list of values |
| `AddressText.ScanCase` | seferogullari-yumlu-kripto-madencilik/mkpool-src/src/address.cpp:145-150 | Mixed case is seen exactly when upper and lower case letters both occur |
| `AddressText.CharsAndValues` | seferogullari-yumlu-kripto-madencilik/mkpool-src/src/address.cpp:115 | Text over the 32-character set and lists of values below 32 are in one-to-one correspondence |
| `AddressText.CharacterSet` | seferogullari-yumlu-kripto-madencilik/mkpool-src/src/address.cpp:115 | The 32 characters in order |
| `AddressText.ReadValues` | seferogullari-yumlu-kripto-madencilik/mkpool-src/src/address.cpp:163-169 | The positions in the character set, or failure at the first character outside it |
| `Bech32.Decode` | seferogullari-yumlu-kripto-madencilik/mkpool-src/src/address.cpp:142-182 | All checks in the source's order with the source's errors: case, separator, prefix, characters, checksum |
| `Bech32.DecodedInvertsEncoded` | seferogullari-yumlu-kripto-madencilik/mkpool-src/src/address.cpp:142-182 | A text decodes to (encoding, data) exactly when it is a single-case spelling of the BIP 173 or BIP 350 encoding of data |
| `AddressStandards.PrefixLayout` | seferogullari-yumlu-kripto-madencilik/mkpool-src/src/address.cpp:133-140 | The prefix goes in as the high three bits of its characters, a zero, and their low five bits |
| `AddressStandards.Bech32Accepts` | seferogullari-yumlu-kripto-madencilik/mkpool-src/src/address.cpp:142-182 | A text of the right shape is accepted exactly when the polymod of BIP 173 over prefix and values is 1, as bech32, or 0x2bc830a3, as bech32m |
| `ConvertBits.Drain` | seferogullari-yumlu-kripto-madencilik/mkpool-src/src/address.cpp:195-198 | The inner loop emits every complete group and leaves fewer bits than one group |
| `ConvertBits.Convert` | seferogullari-yumlu-kripto-madencilik/mkpool-src/src/address.cpp:184-206 | BadCharacter exactly for an oversized value; the output is the regrouped bit stream; the remainder is padded or must be short and zero |
| `ConvertBits.RoundTrip` | seferogullari-yumlu-kripto-madencilik/mkpool-src/src/address.cpp:184-206 | Unpadded regrouping to a wider field succeeds with given bytes exactly when padded regrouping of those bytes gives the symbols back |
| `Segwit.DecodeSegwit` | seferogullari-yumlu-kripto-madencilik/mkpool-src/src/address.cpp:214-231 | Version, program length and encoding checks in the source's order with the source's errors |
| `Segwit.SegwitRoundTrip` | seferogullari-yumlu-kripto-madencilik/mkpool-src/src/address.cpp:214-231 | A text decodes to a version and program exactly when it is a single-case spelling of their one address |
| `Segwit.SingleErrorRefused` | seferogullari-yumlu-kripto-madencilik/mkpool-src/src/address.cpp:142-231 | One wrong character anywhere in an accepted address is refused, unless it turns version 0 into another version or back |
| `AddressStandards.SegwitAccepts` | seferogullari-yumlu-kripto-madencilik/mkpool-src/src/address.cpp:214-231 | Accepted exactly with a version up to 16, a program of 2 to 40 bytes regrouped from the values, 20 or 32 of them for version 0, and polymod 1 for version 0 and 0x2bc830a3 for the others |
| `CashAddr.DecodeCash` | seferogullari-yumlu-kripto-madencilik/mkpool-src/src/address.cpp:266-320 | Prefix, case, character, length, checksum, regrouping and version-byte checks in the source's order with the source's errors |
| `CashAddr.VersionSplits` | seferogullari-yumlu-kripto-madencilik/mkpool-src/src/address.cpp:308-313 | The version byte stands for exactly one kind and one of the eight hash lengths |
| `CashAddr.CashRoundTrip` | seferogullari-yumlu-kripto-madencilik/mkpool-src/src/address.cpp:266-320 | A text decodes to a kind and hash exactly when its payload is a single-case spelling of their one payload under its prefix |
| `CashAddr.SingleErrorRefused` | seferogullari-yumlu-kripto-madencilik/mkpool-src/src/address.cpp:266-300 | One wrong character in an accepted payload is refused (unless it is the ':' that would split a text without prefix) |
| `CashAddr.PrefixError` | seferogullari-yumlu-kripto-madencilik/mkpool-src/src/address.cpp:252-300 | A wrong character in the prefix passes the checksum exactly when its low five bits are right |
| `AddressStandards.PrefixAndPayload` | seferogullari-yumlu-kripto-madencilik/mkpool-src/src/address.cpp:266-280 | The first colon ends the prefix, and without one the prefix is bitcoincash |
| `AddressStandards.CashAccepts` | seferogullari-yumlu-kripto-madencilik/mkpool-src/src/address.cpp:266-320 | Accepted exactly when the CashAddr polymod over prefix and values is 1 and the regrouped bytes are a version byte with kind in its high five bits and the code of the hash length in its low three |
| `AddressStandards.ShortestBech32` | seferogullari-yumlu-kripto-madencilik/mkpool-src/src/address.cpp:120-131 | The checksum of the published string a12uel5l |
| `AddressStandards.ShortestBech32m` | seferogullari-yumlu-kripto-madencilik/mkpool-src/src/address.cpp:120-131 | The checksum of the published string a1lqfn3a |
| `AddressStandards.ShortestCashAddr` | seferogullari-yumlu-kripto-madencilik/mkpool-src/src/address.cpp:237-250 | The checksum of the published string p:gpf8m4h7 |
| `Hex.FromHex` | seferogullari-yumlu-kripto-madencilik/mkpool-src/src/merkle.cpp:37-45 | Odd length and foreign characters are told apart; otherwise the bytes spelled |
| `Hex.HexRoundTrip` | seferogullari-yumlu-kripto-madencilik/mkpool-src/src/merkle.cpp:37-53 | Hex text reads back as the bytes it was written from |
| `Hex.UsualDigits` | seferogullari-yumlu-kripto-madencilik/mkpool-src/src/merkle.cpp:26-53 | The digits and letters of both cases have their usual values, and the first of two is worth sixteen |
| `MerkleTree.FoldReachesRoot` | seferogullari-yumlu-kripto-madencilik/mkpool-src/src/merkle.cpp:110-149 | Combining slot 0 with its siblings gives the root of the full tree with odd levels completed by their last node |
| `MerkleTree.BranchIgnoresSlotZero` | seferogullari-yumlu-kripto-madencilik/mkpool-src/src/merkle.cpp:110-132 | No sibling of slot 0 depends on what is in slot 0 |
| `MerkleTree.BranchLength` | seferogullari-yumlu-kripto-madencilik/mkpool-src/src/merkle.cpp:110-132 | A branch over n leaves has ceil(log2(n)) siblings |
| `MerkleTree.SameRootCollides` | seferogullari-yumlu-kripto-madencilik/mkpool-src/src/merkle.cpp:135-149 | Two coinbase ids with the same root under one branch exhibit two pairs that combine to the same node |
| `Merkle.BuildBranch` | seferogullari-yumlu-kripto-madencilik/mkpool-src/src/merkle.cpp:78-133 | The branch of the tree over a placeholder and the parsed ids, or the first parse error |
| `Merkle.ComputeRoot` | seferogullari-yumlu-kripto-madencilik/mkpool-src/src/merkle.cpp:135-149 | The fold of the coinbase id along the parsed branch, or the first parse error |
| `Merkle.BranchProvesRoot` | seferogullari-yumlu-kripto-madencilik/mkpool-src/src/merkle.cpp:78-149 | For every list of ids, coinbase id and hash function, a branch built without the coinbase takes it to the root of the full tree |
| `Merkle.SmallTrees` | seferogullari-yumlu-kripto-madencilik/mkpool-src/src/merkle.cpp:110-149 | Roots of one, two and three leaves and one fold step as hashes of concatenations: the coinbase and every left node come first |
| `ClusterTrunk.Trunk.constructor` | seferogullari-yumlu-kripto-madencilik/mkpool-src/src/cluster_trunk.cpp:70-83 | The initial state |
| `ClusterTrunk.Trunk.Start` | seferogullari-yumlu-kripto-madencilik/mkpool-src/src/cluster_trunk.cpp:85-88 | Running and, unless already stopped, connecting unwelcomed |
| `ClusterTrunk.Trunk.Connect` | seferogullari-yumlu-kripto-madencilik/mkpool-src/src/cluster_trunk.cpp:101-132 | A new connection starts unwelcomed; nothing changes when stopped |
| `ClusterTrunk.Trunk.OnOpen` | seferogullari-yumlu-kripto-madencilik/mkpool-src/src/cluster_trunk.cpp:134-141 | The hello is written first and the backoff is reset |
| `ClusterTrunk.Trunk.OnFrame` | seferogullari-yumlu-kripto-madencilik/mkpool-src/src/cluster_trunk.cpp:143-185 | A welcome writes all pending frames in order and empties them, data is delivered with its newline only to attached clients, a close detaches, a ping is answered, anything else changes nothing |
| `ClusterTrunk.Trunk.OnClose` | seferogullari-yumlu-kripto-madencilik/mkpool-src/src/cluster_trunk.cpp:187-197 | The buffer and all sessions are dropped, and the next delay is between 2 and 30 seconds |
| `ClusterTrunk.Trunk.ScheduleReconnect` | seferogullari-yumlu-kripto-madencilik/mkpool-src/src/cluster_trunk.cpp:199-207 | The delay grows by two seconds a failure up to 30 |
| `ClusterTrunk.Trunk.SendFrame` | seferogullari-yumlu-kripto-madencilik/mkpool-src/src/cluster_trunk.cpp:209-220 | Written at once only when welcomed and connected, else kept up to 100000 frames |
| `ClusterTrunk.Trunk.Attach` | seferogullari-yumlu-kripto-madencilik/mkpool-src/src/cluster_trunk.cpp:222-229 | A new id is attached and its open frame posted |
| `ClusterTrunk.Trunk.ClientLine` | seferogullari-yumlu-kripto-madencilik/mkpool-src/src/cluster_trunk.cpp:231-233 | The posted frame carries exactly this line, to the bridge of this client and no other, and opens nothing |
| `ClusterTrunk.Trunk.Detach` | seferogullari-yumlu-kripto-madencilik/mkpool-src/src/cluster_trunk.cpp:235-242 | A close frame is posted exactly when the id was still attached |
| `ClusterIngest.Ingest.constructor` | seferogullari-yumlu-kripto-madencilik/mkpool-src/src/cluster_ingest.cpp:31-44 | The initial state |
| `ClusterIngest.Ingest.OnLine` | seferogullari-yumlu-kripto-madencilik/mkpool-src/src/cluster_ingest.cpp:51-76 | Nothing but a hello is handled before the hello, malformed frames close, and each frame changes exactly its own client |
| `ClusterIngest.Ingest.HandleHello` | seferogullari-yumlu-kripto-madencilik/mkpool-src/src/cluster_ingest.cpp:78-106 | Accepted and answered with a welcome exactly when no token is configured or it is the configured one, the coins do not conflict and the role is passthrough or node; otherwise closed without an answer |
| `ClusterIngest.Ingest.OpenClient` | seferogullari-yumlu-kripto-madencilik/mkpool-src/src/cluster_ingest.cpp:108-139 | A second open of a live id changes nothing |
| `ClusterIngest.Ingest.LoopbackConnected` | seferogullari-yumlu-kripto-madencilik/mkpool-src/src/cluster_ingest.cpp:141-147 | The lines buffered before the loopback connected are written in order |
| `ClusterIngest.Ingest.ClientData` | seferogullari-yumlu-kripto-madencilik/mkpool-src/src/cluster_ingest.cpp:149-159 | Forwarded when connected, else buffered up to 64 lines |
| `ClusterIngest.Ingest.CloseClient` | seferogullari-yumlu-kripto-madencilik/mkpool-src/src/cluster_ingest.cpp:161-167 | The bridge goes and the edge is told when asked and not closed |
| `ClusterIngest.Ingest.Shutdown` | seferogullari-yumlu-kripto-madencilik/mkpool-src/src/cluster_ingest.cpp:169-174 | All bridges are dropped once |
| `ClusterSystem.LinesInOrder` | seferogullari-yumlu-kripto-madencilik/mkpool-src/src/cluster_trunk.cpp:143-242 | Over every interleaving of attaches, lines, closes, handshakes, loopback connects and link losses, the lines a bridge gets are an in-order subsequence of what its miner sent, and a prefix unless a full buffer dropped a frame |
| `ClusterSystem.AnswersInOrder` | seferogullari-yumlu-kripto-madencilik/mkpool-src/src/cluster_ingest.cpp:114-119 | What a miner gets is always a prefix of what its own bridge produced |
| `ClusterSystem.OneBridge` | seferogullari-yumlu-kripto-madencilik/mkpool-src/src/cluster_ingest.cpp:108-128 | No client is bridged twice, on whatever connections |
| `ClusterSystem.WelcomeFirst` | seferogullari-yumlu-kripto-madencilik/mkpool-src/src/cluster_trunk.cpp:143-220 | No open, data or close frame is on a connection before the origin has accepted its hello |
| `ClusterGreeting.HelloDecides` | seferogullari-yumlu-kripto-madencilik/mkpool-src/src/cluster_ingest.cpp:78-105 | On a connection without a hello so far, a hello with the configured token, no conflicting coin and a known role is answered by a welcome and nothing else; any other frame closes the session unanswered |
| `ClusterGreeting.OnlyEntitled` | seferogullari-yumlu-kripto-madencilik/mkpool-src/src/cluster_ingest.cpp:83-93 | Over every run, a connection that ever bridged a client or carries a client frame is one on which the edge wrote a hello with such a token, coin and role |
| `ClusterDelivery.NothingMissing` | seferogullari-yumlu-kripto-madencilik/mkpool-src/src/cluster_ingest.cpp:141-159 | Over every run in which no buffer was full, once nothing is on its way the bridge of a client on the live connection has got all the lines of its miner |
| `ClusterDelivery.AllAnswered` | seferogullari-yumlu-kripto-madencilik/mkpool-src/src/cluster_trunk.cpp:160-170 | Once nothing is on its way back, an attached miner has got everything its bridge on the live connection produced |
| `ClusterDelivery.OnlyWhenFull` | seferogullari-yumlu-kripto-madencilik/mkpool-src/src/cluster_trunk.cpp:209-220 | A frame is dropped for want of room only at 100000 pending frames of the edge or 64 pending lines of one unconnected client |
| `ClusterSystem.Always` | seferogullari-yumlu-kripto-madencilik/mkpool-src/src/cluster_trunk.cpp:134-253 | Every reachable state satisfies the joint invariant of edge, links and origin, for every client |
| `ClusterProtocol.NothingOpens` | seferogullari-yumlu-kripto-madencilik/mkpool-src/src/cluster_ingest.cpp:149-151 | Frames without an open frame forward nothing for a closed client |
| `Sv2Codec.Writer.WriteU8` | seferogullari-yumlu-kripto-madencilik/mkpool-src/src/sv2_codec.hpp:45-47 | Appends the byte |
| `Sv2Codec.Writer.WriteU16` | seferogullari-yumlu-kripto-madencilik/mkpool-src/src/sv2_codec.hpp:53-56 | Appends the two little-endian bytes |
| `Sv2Codec.Writer.WriteU24` | seferogullari-yumlu-kripto-madencilik/mkpool-src/src/sv2_codec.hpp:58-62 | Appends the three low little-endian bytes |
| `Sv2Codec.Writer.WriteU64` | seferogullari-yumlu-kripto-madencilik/mkpool-src/src/sv2_codec.hpp:71-75 | The loop appends the eight little-endian bytes |
| `Sv2Codec.Writer.WriteB0255` | seferogullari-yumlu-kripto-madencilik/mkpool-src/src/sv2_codec.hpp:99-103 | Appends the length and at most 255 bytes |
| `Sv2Codec.Reader.ReadU8` | seferogullari-yumlu-kripto-madencilik/mkpool-src/src/sv2_codec.hpp:143-146 | The next byte, or out of range without moving |
| `Sv2Codec.Reader.ReadU16` | seferogullari-yumlu-kripto-madencilik/mkpool-src/src/sv2_codec.hpp:152-157 | The little-endian value of the next two bytes, or out of range without moving |
| `Sv2Codec.Reader.ReadU24` | seferogullari-yumlu-kripto-madencilik/mkpool-src/src/sv2_codec.hpp:159-164 | The little-endian value of the next three bytes, or out of range without moving |
| `Sv2Codec.Reader.ReadB0255` | seferogullari-yumlu-kripto-madencilik/mkpool-src/src/sv2_codec.hpp:215-221 | The announced bytes, or out of range |
| `Sv2Codec.B0255RoundTrip` | seferogullari-yumlu-kripto-madencilik/mkpool-src/src/sv2_codec.hpp:99-103 | A written byte string reads back whole exactly when it has at most 255 bytes |
| `Sv2Framing.HeaderRoundTrip` | seferogullari-yumlu-kripto-madencilik/mkpool-src/src/sv2_messages.hpp:125-140 | A header reads back from its six bytes |
| `Sv2Framing.ReadHeader` | seferogullari-yumlu-kripto-madencilik/mkpool-src/src/sv2_messages.hpp:125-140 | The header of the first six bytes |
| `Sv2Framing.MoreBytes` | seferogullari-yumlu-kripto-madencilik/mkpool-src/src/client_session.cpp:1962-2066 | Parsing may stop at any byte of a plain or encrypted stream and go on with the rest, with the same messages, refusal and nonce |
| `Sv2Framing.RestIsShort` | seferogullari-yumlu-kripto-madencilik/mkpool-src/src/client_session.cpp:1962-2066 | What is kept unparsed is always less than one maximal frame |
| `Sv2Framing.Session.constructor` | seferogullari-yumlu-kripto-madencilik/mkpool-src/src/client_session.cpp:1933-1940 | A session starts by asking for one header |
| `Sv2Framing.Session.DoRead` | seferogullari-yumlu-kripto-madencilik/mkpool-src/src/client_session.cpp:1933-1945 | A read asks for at most 4096 bytes |
| `Sv2Framing.Session.OnRead` | seferogullari-yumlu-kripto-madencilik/mkpool-src/src/client_session.cpp:1945-1960 | After every read the messages dispatched, the refusal and the nonce are those of a one-shot parse of the whole stream, and no read reaches past its frame |
| `Sv2Framing.Session.ProcessBuffer` | seferogullari-yumlu-kripto-madencilik/mkpool-src/src/client_session.cpp:1962-2066 | Dispatches exactly the complete frames and asks for what the next one still needs |
| `Sv2Framing.Session.ProcessPlain` | seferogullari-yumlu-kripto-madencilik/mkpool-src/src/client_session.cpp:2025-2066 | The plain path: header, length check, payload |
| `Sv2Framing.Session.ProcessHeader` | seferogullari-yumlu-kripto-madencilik/mkpool-src/src/client_session.cpp:1965-1999 | The encrypted header path; a failed decryption or an oversized header closes |
| `Sv2Framing.Session.ProcessPayload` | seferogullari-yumlu-kripto-madencilik/mkpool-src/src/client_session.cpp:2002-2024 | The encrypted payload path; an empty payload is 16 bytes consumed without using a nonce |
| `Sv2Framing.Sender.WrapMessage` | seferogullari-yumlu-kripto-madencilik/mkpool-src/src/sv2_messages.hpp:539-551 | Header with the channel bit where it belongs, then the payload |
| `Sv2Framing.FrameLayout` | seferogullari-yumlu-kripto-madencilik/mkpool-src/src/sv2_messages.hpp:539-551 | Byte by byte: extension type and length low byte first, the message type between them, the payload behind; the top bit of the extension type is set exactly for the twelve messages of a channel |
| `Sv2Framing.Sender.SendMessage` | seferogullari-yumlu-kripto-madencilik/mkpool-src/src/client_session.cpp:2289-2311 | The bytes on the wire and the nonce afterwards; an empty payload uses one nonce |
| `Sv2Framing.EmptyOnWire` | seferogullari-yumlu-kripto-madencilik/mkpool-src/src/client_session.cpp:2289-2311 | An empty sealed message is a sealed header and sixteen zero bytes |
| `Sv2Framing.ReceiveUndoesSend` | seferogullari-yumlu-kripto-madencilik/mkpool-src/src/client_session.cpp:2289-2311 | Receiving undoes sending for one legal message in front of anything, with both nonces in step |
| `Sv2Framing.ConversationArrives` | seferogullari-yumlu-kripto-madencilik/mkpool-src/src/client_session.cpp:2289-2311 | Any conversation of legal messages arrives complete and in order, and both nonce counters agree at its end |
| `Sv2Framing.OversizedRefused` | seferogullari-yumlu-kripto-madencilik/mkpool-src/src/sv2_messages.hpp:115-123 | A longer message is refused by its header and nothing after it is dispatched |
| `LineReader.MoreText` | seferogullari-yumlu-kripto-madencilik/mkpool-src/src/relay_session.cpp:117-125 | Splitting may stop anywhere and go on with the rest, also when a handler closes the session |
| `LineReader.Reader.constructor` | seferogullari-yumlu-kripto-madencilik/mkpool-src/src/relay_session.cpp:30-41 | A reader starts with nothing buffered |
| `LineReader.Reader.OnRead` | seferogullari-yumlu-kripto-madencilik/mkpool-src/src/relay_session.cpp:112-127 | The lines dispatched are those of the whole stream read so far; oversize exactly when the buffer passes 2^20 bytes, never when all lines are at most 2^20 - 4096 bytes long |
| `LineReader.Reader.Drain` | seferogullari-yumlu-kripto-madencilik/mkpool-src/src/relay_session.cpp:117-125 | The loop dispatches every complete non-empty line, without a trailing return, until the handler closes |
| `LineReader.SendThenRead` | seferogullari-yumlu-kripto-madencilik/mkpool-src/src/relay_session.cpp:112-127 | Lines ended by a newline, with or without a return, are read back as they were written |
| `Coinbase.EncodeHeight` | seferogullari-yumlu-kripto-madencilik/mkpool-src/src/utils.hpp:390-403 | Length and little-endian bytes of the height; a negative height fails |
| `Coinbase.HeightReadsBack` | seferogullari-yumlu-kripto-madencilik/mkpool-src/src/utils.hpp:390-403 | A height below 2^31 is pushed as a script number that reads back as it, exactly when it is not in [128, 256), [32768, 65536) or [2^23, 2^24) |
| `Coinbase.HeightMisread` | seferogullari-yumlu-kripto-madencilik/mkpool-src/src/utils.hpp:390-403 | Height 32768 is pushed as 00 80, which is not 32768 as a script number |
| `Coinbase.BuildFirstHalf` | seferogullari-yumlu-kripto-madencilik/mkpool-src/src/stratifier.cpp:184-228 | Fails exactly for a negative height or a signature over 75 bytes, never by length; otherwise the shared first half with the right script length byte |
| `Transactions.ParseSerialize` | seferogullari-yumlu-kripto-madencilik/mkpool-src/src/client_session.cpp:88-106 | Serialized bytes parse as exactly their transaction |
| `Transactions.SerializeParse` | seferogullari-yumlu-kripto-madencilik/mkpool-src/src/client_session.cpp:88-106 | Only serialized transactions parse |
| `Transactions.WitnessKeepsTx` | seferogullari-yumlu-kripto-madencilik/mkpool-src/src/client_session.cpp:48-62 | Adding marker, flag and witness keeps the transaction, hence its id |
| `Transactions.SegwitifyCoinbase` | seferogullari-yumlu-kripto-madencilik/mkpool-src/src/client_session.cpp:48-62 | The witness form, unchanged input below 8 bytes |
| `CoinbaseOutputs.CountIsRight` | seferogullari-yumlu-kripto-madencilik/mkpool-src/src/client_session.cpp:1275-1286 | The declared output count is right except for an eCash job with a witness commitment, where it is one short |
| `CoinbaseOutputs.ValueConserved` | seferogullari-yumlu-kripto-madencilik/mkpool-src/src/client_session.cpp:1222-1273 | No output is negative and they add up to the template value exactly when fund and staking fit in it |
| `CoinbaseOutputs.BuildSecondHalf` | seferogullari-yumlu-kripto-madencilik/mkpool-src/src/client_session.cpp:1213-1313 | Sequence, count, outputs and locktime as specified; nothing without a miner script |
| `CoinbaseOutputs.AppendOutput` | seferogullari-yumlu-kripto-madencilik/mkpool-src/src/client_session.cpp:1288-1294 | Appends one serialized output |
| `CoinbaseOutputs.CoinbaseParses` | seferogullari-yumlu-kripto-madencilik/mkpool-src/src/client_session.cpp:1213-1313 | The halves around any 12-byte extranonce parse as one transaction with the intended script and outputs, exactly when the job is not an eCash job with a witness commitment |
| `CoinbaseOutputs.CoinbaseConserves` | seferogullari-yumlu-kripto-madencilik/mkpool-src/src/client_session.cpp:1213-1313 | The 64-bit values of the outputs parsed back from the coinbase bytes add up to the template value exactly when fund and staking fit in it |
| `CoinbaseOutputs.TooMuch` | seferogullari-yumlu-kripto-madencilik/mkpool-src/src/client_session.cpp:1251-1271 | When they do not fit, the outputs always add up to more than the template value |
| `CoinbaseOutputs.CommitmentUncounted` | seferogullari-yumlu-kripto-madencilik/mkpool-src/src/client_session.cpp:1275-1286 | An eCash job with a one-byte witness commitment: its coinbase does not parse |
| `CoinbaseOutputs.FundTooLarge` | seferogullari-yumlu-kripto-madencilik/mkpool-src/src/client_session.cpp:1251-1271 | A fund of 101 and a reward of 10 out of 100: the parsed outputs total 2^64 + 100 |
| `CoinbaseOutputs.WitnessedCoinbase` | seferogullari-yumlu-kripto-madencilik/mkpool-src/src/client_session.cpp:48-62 | The witness form of every such coinbase has the same transaction |
| `CoinbaseOutputs.EveryoneIsPaid` | seferogullari-yumlu-kripto-madencilik/mkpool-src/src/client_session.cpp:1222-1313 | Read back from the coinbase bytes: the operator's output has the donation script and the nearest satoshi to its share of what fund and staking leave, output 0 pays the miner's script the rest, fund, staking and commitment outputs have the template's amounts and scripts or the stated defaults |
| `CoinbaseOutputs.MinerGetsMore` | seferogullari-yumlu-kripto-madencilik/mkpool-src/src/client_session.cpp:1259-1273 | With a donation below one half the miner's output is at least the operator's, up to one satoshi |
| `CoinbaseScript.CoinbaseReads` | seferogullari-yumlu-kripto-madencilik/mkpool-src/src/stratifier.cpp:184-228 | The parsed coinbase spends nothing, with version 1 and no locktime, and its script is the height in as few bytes as it needs, the signature, the commitment's place when merge mining is on, and the extranonce |
| `AuxPow.BuildDogeCoinbase` | seferogullari-yumlu-kripto-madencilik/mkpool-src/src/client_session.cpp:67-108 | The Dogecoin coinbase parses as the intended transaction; fails exactly for a negative height or a long signature |
| `AuxPow.DogeValueConserved` | seferogullari-yumlu-kripto-madencilik/mkpool-src/src/client_session.cpp:78-83 | Miner and operator share exactly the block's value |
| `AuxPow.BuildSessionAux` | seferogullari-yumlu-kripto-madencilik/mkpool-src/src/client_session.cpp:1029-1070 | Exactly when the template is usable, work whose coinbase parses as the Dogecoin transaction meant, whose header has the template's version, time, reversed previous hash and reversed bits, nonce zero and that coinbase's hash as root, and whose commitment carries the reversed header hash |
| `AuxPow.ShareHeader` | seferogullari-yumlu-kripto-madencilik/mkpool-src/src/client_session.cpp:1524-1531 | The parent header has every field of the share and the job at its place and the folded coinbase hash as root |
| `AuxPow.SpliceFits` | seferogullari-yumlu-kripto-madencilik/mkpool-src/src/client_session.cpp:1090-1093 | Splicing the commitment over the last 44 bytes replaces the placeholder and leaves every length byte right |
| `AuxPow.BlockParts` | seferogullari-yumlu-kripto-madencilik/mkpool-src/src/client_session.cpp:1776-1793 | The pieces of an assembled block are read back in the merged mining format |
| `AuxPow.DogeTotal` | seferogullari-yumlu-kripto-madencilik/mkpool-src/src/client_session.cpp:78-106 | The outputs of the parsed Dogecoin coinbase add up to the block's value |
| `AuxPow.DogeDivides` | seferogullari-yumlu-kripto-madencilik/mkpool-src/src/client_session.cpp:78-106 | Read back from the Dogecoin coinbase: the operator gets the nearest satoshi to its share and the miner's script the rest |
| `CoinbaseScript.DogeReads` | seferogullari-yumlu-kripto-madencilik/mkpool-src/src/client_session.cpp:85-107 | The Dogecoin coinbase spends nothing and its script is the height and the signature |
| `AuxPow.SubmittedBlockProves` | seferogullari-yumlu-kripto-madencilik/mkpool-src/src/client_session.cpp:1485-1793 | Every block assembled for a share, with the header the submit handler builds, passes the merged mining checks: its header is the session's, its coinbase is under it, its hash is committed byte for byte in the embedded parent coinbase, and that coinbase with the embedded branch gives the embedded parent header's root |
| `AuxPow.HeaderRootOfTree` | seferogullari-yumlu-kripto-madencilik/mkpool-src/src/client_session.cpp:1485-1507 | With the branch sent for the job the parent header's root is that of the full tree over the rebuilt coinbase and the job's transactions |
| `AuxPow.StoredExactly` | seferogullari-yumlu-kripto-madencilik/mkpool-src/src/client_session.cpp:1087-1088 | A commitment is stored for a job exactly when the job once went out with one and the map was not emptied since, and it is the last one sent |
| `AuxPow.StoredSince` | seferogullari-yumlu-kripto-madencilik/mkpool-src/src/client_session.cpp:1087-1088 | After a job last went out with a commitment, that commitment is stored until the map is emptied, and nothing is stored after that |
| `AuxPow.RebuiltAsSent` | seferogullari-yumlu-kripto-madencilik/mkpool-src/src/client_session.cpp:1491-1502 | Over every series of notices, a share is rebuilt with the first half its miner was last sent exactly when the job last went out with a commitment and the map was not emptied since, or it last went out plain and no earlier commitment is held, or the commitment changes nothing |
| `AuxPow.SpliceChanges` | seferogullari-yumlu-kripto-madencilik/mkpool-src/src/client_session.cpp:1090-1093 | A commitment leaves the first half as it was only for the placeholder's zero hash |
| `AuxPow.FewRemembered` | seferogullari-yumlu-kripto-madencilik/mkpool-src/src/client_session.cpp:1087-1088 | With at most 257 jobs sent none is forgotten |
| `AuxPow.JobForgotten` | seferogullari-yumlu-kripto-madencilik/mkpool-src/src/client_session.cpp:1087-1088 | The 258th job with a commitment makes the session forget the 257th, whose shares are then rebuilt with the placeholder |
| `AuxPow.ResentPlain` | seferogullari-yumlu-kripto-madencilik/mkpool-src/src/client_session.cpp:717-722 | A job sent again without its commitment (a difficulty change does) is rebuilt with it, so the miner's hash no longer matches |
| `AuxPow.AuxSession.constructor` | seferogullari-yumlu-kripto-madencilik/mkpool-src/src/client_session.cpp:1084-1088 | No work announced, nothing submitted |
| `AuxPow.AuxSession.Notify` | seferogullari-yumlu-kripto-madencilik/mkpool-src/src/client_session.cpp:1084-1123 | The job goes out with a commitment exactly when its template is usable, then with the session's own work, and otherwise plain; every stored work stays usable |
| `AuxPow.AuxSession.Resend` | seferogullari-yumlu-kripto-madencilik/mkpool-src/src/client_session.cpp:1127-1192 | The job as the stratifier built it |
| `AuxPow.AuxSession.Submit` | seferogullari-yumlu-kripto-madencilik/mkpool-src/src/client_session.cpp:1740-1793 | Submitted exactly when the job has stored work, the proof-of-work hash of the parent header is a number not above the template's target, and its Dogecoin hash is not remembered; the block submitted proves itself with that work and describes its template |
| `AuxPow.MeetsTarget` | seferogullari-yumlu-kripto-madencilik/mkpool-src/src/client_session.cpp:1755-1765 | The first byte that differs from the target decides, which is comparing the numbers; equality meets it |
| `DbWorker.Worker.constructor` | seferogullari-yumlu-kripto-madencilik/mkpool-src/src/db_worker.cpp:50 | Empty queues and an empty database |
| `DbWorker.Worker.EnqueueShare` | seferogullari-yumlu-kripto-madencilik/mkpool-src/src/db_worker.cpp:68-79 | Accepted exactly below the queue cap, at the end of the queue |
| `DbWorker.Worker.EnqueuePresence` | seferogullari-yumlu-kripto-madencilik/mkpool-src/src/db_worker.cpp:81-89 | As for shares |
| `DbWorker.Worker.EnqueueBestShare` | seferogullari-yumlu-kripto-madencilik/mkpool-src/src/db_worker.cpp:91-99 | As for shares |
| `DbWorker.Worker.EnqueueHashrate` | seferogullari-yumlu-kripto-madencilik/mkpool-src/src/db_worker.cpp:101-109 | As for shares |
| `DbWorker.Worker.EnqueueBlock` | seferogullari-yumlu-kripto-madencilik/mkpool-src/src/db_worker.cpp:111-126 | As for shares |
| `DbWorker.Worker.Connect` | seferogullari-yumlu-kripto-madencilik/mkpool-src/src/db_worker.cpp:162-173 | A missing or closed connection is replaced if the server answers; otherwise the loop starts over and nothing moves |
| `DbWorker.Worker.Drain` | seferogullari-yumlu-kripto-madencilik/mkpool-src/src/db_worker.cpp:175-244 | All queues become the batch, in order; with nothing queued the loop starts over |
| `DbWorker.Worker.Flush` | seferogullari-yumlu-kripto-madencilik/mkpool-src/src/db_worker.cpp:248-463 | A commit applies the batch once, a broken connection puts it back in front in order, another error gives it up; settled, in flight and queued stay what was accepted |
| `DbWorker.Worker.Perform` | seferogullari-yumlu-kripto-madencilik/mkpool-src/src/db_worker.cpp:162-464 | Any step, of the worker thread only where it is, has the effect of the step function |
| `DbWorker.Worker.Pass` | seferogullari-yumlu-kripto-madencilik/mkpool-src/src/db_worker.cpp:162-464 | A whole pass: without a connection nothing moves; with one, everything queued is committed, put back or given up |
| `DbWorker.Lifetime` | seferogullari-yumlu-kripto-madencilik/mkpool-src/src/db_worker.cpp:68-464 | A worker put through any steps from its start is in the state they lead to |
| `DbWorker.InOrder` | seferogullari-yumlu-kripto-madencilik/mkpool-src/src/db_worker.cpp:68-464 | For every interleaving of enqueues, connection checks, drains and flushes: the batches settled, the batch in flight and the queue are exactly the records accepted, in order, and the database is the history of the batches kept |
| `DbWorker.NothingLost` | seferogullari-yumlu-kripto-madencilik/mkpool-src/src/db_worker.cpp:436-463 | Every batch settled is kept exactly when no flush ended in an error that is not the connection's |
| `DbWorker.AllCommitted` | seferogullari-yumlu-kripto-madencilik/mkpool-src/src/db_worker.cpp:162-440 | After any steps, one pass that connects and commits leaves every record accepted and not given up in the database, and the queue empty |
| `DbWorker.Worker.Requeue` | seferogullari-yumlu-kripto-madencilik/mkpool-src/src/db_worker.cpp:436-458 | Pushing to the front in reverse keeps the order of every queue |
| `DbWorker.Worker.Transaction` | seferogullari-yumlu-kripto-madencilik/mkpool-src/src/db_worker.cpp:296-434 | The accumulator first, then the blocks one by one |
| `DbWorker.CommittedBalance` | seferogullari-yumlu-kripto-madencilik/mkpool-src/src/db_worker.cpp:296-432 | A commit moves exactly its accepted difficulty into round efforts, the accumulator and what a duplicate wiped |
| `DbWorker.RecordedBalance` | seferogullari-yumlu-kripto-madencilik/mkpool-src/src/db_worker.cpp:346-432 | An auxiliary block never changes the accumulator, and no block changes the balance |
| `DbWorker.OtherCoinsBatch` | seferogullari-yumlu-kripto-madencilik/mkpool-src/src/db_worker.cpp:346-432 | A batch whose blocks all have a coin that is neither empty nor the primary adds its accepted difficulty to the accumulator, and every row it adds has effort 0 |
| `DbWorker.OwnBlock` | seferogullari-yumlu-kripto-madencilik/mkpool-src/src/db_worker.cpp:362-432 | A new block whose coin is empty or the primary takes the whole accumulator into its row and leaves it at 0, after any blocks of its batch |
| `DbWorker.OwnBlockBatch` | seferogullari-yumlu-kripto-madencilik/mkpool-src/src/db_worker.cpp:296-432 | The accumulator its row takes includes the accepted shares of its own batch |
| `DbWorker.OtherCoinKeepsEffort` | seferogullari-yumlu-kripto-madencilik/mkpool-src/src/db_worker.cpp:346-432 | A DOGE block after a share of 5 under LTC leaves the 5 in the accumulator |
| `DbWorker.OneShareCounts` | seferogullari-yumlu-kripto-madencilik/mkpool-src/src/db_worker.cpp:296-340 | A share anywhere in a batch counts with its difficulty exactly when it was accepted |
| `DbWorker.EffortAddsUp` | seferogullari-yumlu-kripto-madencilik/mkpool-src/src/db_worker.cpp:296-432 | Over any history, parent round efforts, the accumulator and what was wiped add up to all accepted difficulty |
| `DbWorker.EffortConserved` | seferogullari-yumlu-kripto-madencilik/mkpool-src/src/db_worker.cpp:296-432 | Over every history, parent round efforts and the accumulator add up to all accepted difficulty exactly when no parent block already in the table is recorded while the accumulator is not zero |
| `DbWorker.HistoryWipes` | seferogullari-yumlu-kripto-madencilik/mkpool-src/src/db_worker.cpp:296-432 | The accumulator and what was wiped are never negative, and nothing was wiped exactly when no such block was recorded |
| `DbWorker.DistinctConserves` | seferogullari-yumlu-kripto-madencilik/mkpool-src/src/db_worker.cpp:296-432 | With distinct block hashes none is, so effort is conserved |
| `DbWorker.DuplicateLosesEffort` | seferogullari-yumlu-kripto-madencilik/mkpool-src/src/db_worker.cpp:410-432 | Shares of 5 and 7 around two reports of one block leave 7 in no round |
| `RateLimiter.Limiter.constructor` | seferogullari-yumlu-kripto-madencilik/mkpool-src/src/rate_limiter.cpp:29 | No buckets and no bans |
| `RateLimiter.Limiter.AllowConnection` | seferogullari-yumlu-kripto-madencilik/mkpool-src/src/rate_limiter.cpp:41-69 | The address's new bucket, ban and answer, and no other address changes |
| `RateLimiter.Limiter.OnDisconnect` | seferogullari-yumlu-kripto-madencilik/mkpool-src/src/rate_limiter.cpp:71-76 | One open connection less, never below zero |
| `RateLimiter.Limiter.BanAddress` | seferogullari-yumlu-kripto-madencilik/mkpool-src/src/rate_limiter.cpp:78-82 | The end of the ban |
| `RateLimiter.Limiter.RecordInvalidShare` | seferogullari-yumlu-kripto-madencilik/mkpool-src/src/rate_limiter.cpp:92-107 | Counted within the window; a ban at the threshold |
| `RateLimiter.Limiter.ClearInvalid` | seferogullari-yumlu-kripto-madencilik/mkpool-src/src/rate_limiter.cpp:109-115 | The count is cleared |
| `RateLimiter.AlwaysSound` | seferogullari-yumlu-kripto-madencilik/mkpool-src/src/rate_limiter.cpp:31-76 | Over any calls tokens stay between zero and the burst and open connections below the maximum |
| `RateLimiter.OpenCount` | seferogullari-yumlu-kripto-madencilik/mkpool-src/src/rate_limiter.cpp:41-76 | Open connections are those accepted less those closed |
| `RateLimiter.AcceptedWithinRate` | seferogullari-yumlu-kripto-madencilik/mkpool-src/src/rate_limiter.cpp:31-69 | In any stretch of calls, whatever the order of clock samples, accepted connections are at most the burst and the rate times the advance of the bucket's clock |
| `RateLimiter.LimitsExactly` | seferogullari-yumlu-kripto-madencilik/mkpool-src/src/rate_limiter.cpp:31-69 | When connections are accepted at all (burst and maximum at least one) the rate bound holds in every state over all calls exactly on clocks that never show zero |
| `RateLimiter.ZeroCalls` | seferogullari-yumlu-kripto-madencilik/mkpool-src/src/rate_limiter.cpp:55-68 | On a new address any number of connections opened and closed at time zero is accepted |
| `RateLimiter.FirstCall` | seferogullari-yumlu-kripto-madencilik/mkpool-src/src/rate_limiter.cpp:57-68 | A first call starts the clock and fills the bucket |
| `RateLimiter.AllowExactly` | seferogullari-yumlu-kripto-madencilik/mkpool-src/src/rate_limiter.cpp:31-69 | A connection is accepted exactly when no ban holds, a slot is free and a whole token is there after what the clock earned; the tokens and slots afterwards |
| `RateLimiter.BannedAtThreshold` | seferogullari-yumlu-kripto-madencilik/mkpool-src/src/rate_limiter.cpp:92-107 | Of invalid shares within one window, each that completes the threshold bans the address for the configured time after it, and no other does |
| `RateLimiter.ZeroSampleRefills` | seferogullari-yumlu-kripto-madencilik/mkpool-src/src/rate_limiter.cpp:58-61 | A clock sample of zero is taken for a new bucket: two calls at time zero pass a burst of one |
| `Target.MaxTarget` | seferogullari-yumlu-kripto-madencilik/mkpool-src/src/client_session.cpp:2370 | The difficulty-one target is 0xFFFF * 2^208 |
| `Target.DiffToTargetBytes` | seferogullari-yumlu-kripto-madencilik/mkpool-src/src/client_session.cpp:2368-2384 | The little-endian digits of the low 32 bytes of floor(M/d) |
| `Target.ScoreMeets` | seferogullari-yumlu-kripto-madencilik/mkpool-src/src/client_session.cpp:2880-2895 | A hash is within floor(M/d) exactly when it scores at least d |
| `Target.TargetMatchesScore` | seferogullari-yumlu-kripto-madencilik/mkpool-src/src/client_session.cpp:2368-2384 | Advertised target and score agree on every hash exactly when floor(M/d) is below 2^256 or its low 256 bits are all ones |
| `Target.TargetCut` | seferogullari-yumlu-kripto-madencilik/mkpool-src/src/client_session.cpp:2368-2384 | At the difficulty M / 2^256 the target is cut to zero and they disagree |
| `Target.ByteCompare` | seferogullari-yumlu-kripto-madencilik/mkpool-src/src/client_session.cpp:2872-2877 | The difference of the first two bytes that differ |
| `Target.CompareIsNumeric` | seferogullari-yumlu-kripto-madencilik/mkpool-src/src/client_session.cpp:2872-2878 | Comparing byte by byte is comparing the 256-bit numbers |
| `Target.TargetFromBits` | seferogullari-yumlu-kripto-madencilik/mkpool-src/src/utils.hpp:271-292 | The 32 bytes of a compact target; zero unless four bytes are given |
| `Target.CompactValue` | seferogullari-yumlu-kripto-madencilik/mkpool-src/src/utils.hpp:284-290 | They stand for mantissa * 256^(exponent - 3) while the exponent is at most 32 |
| `Target.CompactOutside` | seferogullari-yumlu-kripto-madencilik/mkpool-src/src/utils.hpp:277-289 | Below exponent 3 the mantissa is shifted right, and above 32 the target is zero |
| `ShareReplay.Ingester.constructor` | public-pool-lonestrike-cash/dashboard/server.js:387-392 | No channels, no round work |
| `ShareReplay.Ingester.Ingest` | public-pool-lonestrike-cash/dashboard/server.js:479-506 | All lines read, then the pruning of the list of recent shares |
| `ShareReplay.Ingester.IngestLine` | public-pool-lonestrike-cash/dashboard/server.js:479-501 | A share not above the highest number of its channel changes nothing; another is counted once, for the best after its reset and for the round after the round start |
| `ShareReplay.Ingester.Prune` | public-pool-lonestrike-cash/dashboard/server.js:503-504 | Shares older than ten minutes leave the front of the list |
| `ShareReplay.Ingester.ResetRound` | public-pool-lonestrike-cash/dashboard/server.js:1391-1393 | The round starts again at the given time |
| `ShareReplay.Ingester.Restart` | public-pool-lonestrike-cash/dashboard/server.js:172-190 | The saved channels and the persisted round start remain |
| `ShareReplay.RescansAreOneScan` | public-pool-lonestrike-cash/dashboard/server.js:404-501 | Any gap-free series of overlapping rescans leaves exactly the state of one scan, the list of recent shares included |
| `ShareReplay.AcceptedIsCount` | public-pool-lonestrike-cash/dashboard/server.js:479-490 | When a channel's numbers increase, one scan accepts every one of its shares |
| `ShareReplay.OneScanIs` | public-pool-lonestrike-cash/dashboard/server.js:479-501 | When a channel's numbers increase, one scan lists every share in order, the round total is the work of every share after the round start, and each channel has the count of those, its hardest share since the reset and its last time |
| `ShareReplay.PrunedIs` | public-pool-lonestrike-cash/dashboard/server.js:503-504 | Exactly the shares before the first one that is not too old are dropped |
| `ShareReplay.RestartRecovers` | public-pool-lonestrike-cash/dashboard/server.js:172-190 | After a restart, rescanning from any earlier line recovers every saved counter |
| `ShareReplay.RestartMisses` | public-pool-lonestrike-cash/dashboard/server.js:172-190 | After a restart and a rescan the round total is short by exactly the work of the shares that had been counted when the channels were saved |
| `ShareReplay.RoundTotalIsSound` | public-pool-lonestrike-cash/dashboard/server.js:484-500 | Over any mix of rescans, blocks and restarts the round total is the work of distinct shares stamped after the persisted round start |

## Left out

- BLAKE2b, SHA-256d, scrypt and the Noise handshake: foreign calls, parameters here; the failing return of the BLAKE2b initialisation (equihash.hpp:175-181) is not modelled.
- Equihash parameters with other than 20 bits a level: the code is fixed to (200, 9); K is general here.
- decode_impl (address.cpp:329-463): which decoder is tried first, Base58Check's hash comparison and the tables of version bytes and network names.
- Segwit.SingleErrorRefused: says nothing about a wrong version character that turns version 0 into another or back, because then the checksum constant changes too.
- Bech32.Decode: asks for an ASCII human-readable part, as all callers pass constants.
- ClusterSystem.LinesInOrder: does not say that every bridge is eventually closed; an open frame posted just before a link loss can be written on the next connection for a miner already gone. Handlers of one strand, and the lock-then-post of attach and detach, are single steps.
- ClusterSystem.AnswersInOrder: counts a line as got when it is handed to the miner's session; a closing session drops a tail of what it was handed. Callbacks of a connection already reported closed do not arrive.
- ClusterTrunk.Trunk.OnFrame: streamed blocks for a local node, statistics, logging and stop() are not modelled, nor is the wrap-around of the 64-bit client id.
- Sv2Framing.Session.OnRead: disconnects decided by message handlers are not modelled; message bodies beyond the byte-string primitive are not parsed.
- Sv2Framing.Sender.SendMessage: asks for payloads below 4 GiB; a payload of 16 MiB or more would have its length cut to 24 bits.
- ClusterIngest.Ingest.HandleHello: a node trunk's registration for block relay is not modelled.
- Segwit.DecodeSegwit: asks for an ASCII human-readable part, as Bech32.Decode does.
- LineReader.Reader.OnRead: TLS, timers and the write queue are not modelled.
- CoinbaseOutputs.BuildSecondHalf: asks for scripts below 253 bytes, as decoded addresses always give; longer ones do not fit the one-byte length the code writes.
- Zcash coinbases, which come ready-made in the template, and Stratum V2 extended channels granted more than eight extranonce bytes.
- AuxPow.AuxSession.Submit: the proof-of-work hash is a parameter, and the node's answer is not modelled.
- DbWorker.Worker.Flush: a transaction is committed or rolled back as the worker is told; SQL text, per-miner finder effort, network difficulty snapshots, presence updates and the five-minute hashrate aggregation are not modelled. A commit whose answer is lost is whatever the worker is told it was. Records still queued when the worker stops stay queued.
- DbWorker.Worker.Transaction: writes the accumulator and the blocks; the presence, best-share and hashrate statements only carry their text.
- RateLimiter.AcceptedWithinRate: asks for clock samples other than zero, for which RateLimiter.LimitsExactly says why.
- RateLimiter.Limiter.AllowConnection: the two lock acquisitions are one step.
- Target.DiffToTargetBytes: exact quotients in place of doubles; scoring is for the SHA-256d difficulty-one target.
- ShareReplay.Ingester.Ingest: works on parsed share lines with their timestamps; regular expressions, channel naming, rejected-share counts (which a rescan counts again), persisted bests and lines cut in half by a read are not modelled.
- ShareReplay.Ingester.IngestLine: persisted bests, rejected shares and channel naming are not modelled.
- ShareReplay.Ingester.ResetRound: the reset of the best difficulties that comes with a local block is not modelled.
- The redirector's weighted wheel, vardiff, configuration, JSON escaping, HTTP, ZMQ and control sockets: plumbing or easy members.
