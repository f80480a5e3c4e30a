# Peach bridge and keeper: a verified model

This project models the code that moves messages, tokens and hedges for Peach, and proves what that code is
for. It has four parts.

* **Wormhole on Algorand.** The core contract and the token bridge are state machines over global state and over
  per-account storage. The model follows the handlers branch by branch: opt-in, boot, governance, message
  publication, VAA verification, attestation, both halves of a transfer, and the paged blobs that hold replay
  bitmaps, guardian sets, sequence counters and asset records. It also has the client that cuts a VAA's signatures
  into transactions and computes the storage addresses off chain.
* **The Go VAA library.** Marshalling, unmarshalling, quorum, signature verification, and the producer side of
  the bytes that the contracts read at fixed offsets.
* **Fortuna.** The reversed hash chain with its rotation lookup, and the keeper's block watcher, batches and cache.
* **The Peach keeper.** The failover RPC client, the auto-claim lock under overlapping ticks, and the TWAP machine.

Code that updates things in place is a class or a method with a loop, proved against a specification function or
predicate; code that only computes is a function. The main theorems are about these specifications:

* *Soundness of verifyVAA* (`VerifyVaa.Run`, `VerifyVaa.Soundness`): approval is equivalent to a declarative
  statement about the whole group, which implies a quorum of distinct stored guardians over this VAA's digest.
  `WormholeCore.Core.SignedByCurrentSet` carries it to governance: every applied action was signed by a quorum of
  the set that is current at that moment.
* *Client and contract agree* (`Client.ClientAgrees`, `Client.AgreeExactly`): for a VAA that Go verifies, the
  client's group is approved if and only if no signer has an index of 32 or more, because the contract remembers
  signers in four bytes. Sets of at most 32 keys have no such signer (`Client.SmallSetsAreLow`);
  `Client.HighSignerExists` exhibits a VAA that has one.
* *Replay protection over whole runs* (`WormholeCore.Core.Run`, `TokenBridge.Bridge.Run`): the bitmaps are at all
  times exactly the consumed messages, no two accepted calls carry the same one, and the client's floating-point
  lookup sees the same bit.
* *Guardian rotation over whole runs* (`WormholeCore.Core.SetsInReachableState`): tags and the exact content of every
  set's blob, for sets of any size that fits. *A guardian set survives the way from Go to verifyVAA*, at boot
  (`EndToEnd.Boot`), by a group of the client (`EndToEnd.SubmitUpdate`) and over any later run
  (`EndToEnd.SurvivesRun`, `EndToEnd.SetReadBack`), and is refused from a day after it was superseded
  (`EndToEnd.StaysExpired`).
* *Message numbers* (`WormholeCore.Core.SequencesInReachableState`): no gap and no repeat for any sender.
* *The bridge acts on guardian signatures only*, over runs of both contracts (`CrossContract.RunBoth`), and on
  registered emitters only (`TokenBridge.Bridge.EmittersInReachableState`).
* *Which redemptions are paid, and what they pay* (`TokenBridge.Bridge.RedeemsExactly`, `TokenBridge.Bridge.RedeemsAs`),
  and *escrows cover what was sent and not yet redeemed* over runs of whole groups with their balances
  (`Escrow.Ledger.Run`, `Escrow.Ledger.EscrowCovers`, `Escrow.Ledger.PublishedCanBePaid`).
* *Governance bytes mean what their producers wrote* (`GovernancePayloads.ActionExactly` and the read-back lemmas).
* *The blob refines a flat array*, *storage never aliases*, *the VAA encoding is canonical*, *quorums intersect*,
  *a wrapped asset keeps its identity*, *a deposit comes back up to dust*, *no block is skipped*,
  *failover makes progress*, *claims exclude each other*, *reveals verify*, *tranches are bounded* (`Twap.RunBound`).

## Assumptions

* Sha512_256 is collision free. Keccak256 yields 32 bytes. ECDSA recovery is any function, and Go's Ecrecover and the
  AVM's ecdsa_pk_recover are the same one.
* A transaction sent by the stored program hash has passed `vaa_verify_program`, since only that program can sign
  for its own hash. Boot stores that hash, and boot passes the same account in slots 2 and 3; `init` checks neither.
* Python's division of integers is the exact quotient rounded as IEEE doubles are: from 1/15240 up to 2^53 the relative
  error is at most 2^-53 and rounding does not cross an integer; zero stays zero and no quotient becomes negative.
  Underflow is allowed for.
* Ledger rules: a panic undoes the transaction and a refusal undoes the group, an account opts in once, an account
  that has opted in is rekeyed to the application and cannot clear its state, asset ids are positive 64-bit numbers,
  senders are 32 bytes, arguments are shorter than 4096 bytes. The inner payment of the Transfer action and the other
  inner transactions succeed.
* Timers do not fire early and clocks do not run backwards.

## Where the code and its comments differ

* A guardian set of 50 or more keys runs into the expiry field: its bytes there are read as a date
  (`GuardianSets.FreshExpiry`, `GuardianSets.FiftyKeysExpire`), and superseding it overwrites eight of them
  (packages/wormhole_sdk/algorand/wormhole_core.py:270-273). Up to 49 keys nothing of this happens
  (`GuardianSets.ImageHolds`, `EndToEnd.SmallSetsLive`); more than 95 are refused.
* A batch holds up to 101 blocks although the constant's comment says 100: the end is the start plus 100, inclusive
  (packages/pyth_sdk/apps/fortuna/src/keeper.rs:75-76 and 515-519). `BlockWatcher.OneBatchOf101` gives the smallest such
  range and `BlockWatcher.HundredBlocks` the exact condition.
* A hash chain of length 0 still has one element (packages/pyth_sdk/apps/fortuna/src/state.rs:24-34).
* A stream with a single tranche never becomes FULLY_HEDGED: the first success always leaves it TWAP_ACTIVE and
  detection then stops (apps/keeper/src/keeper.ts:140-147).
* A blob operation whose end is byte 1905 fails although the blob has 1905 bytes, because the page of the end is
  touched even when nothing of it is used (packages/wormhole_sdk/algorand/local_blob.py:91-133).

## Model

| member | source | states |
|---|---|---|
| `TmplSig.UvarintIsLeb128` | packages/wormhole_sdk/algorand/wormhole_core.py:77-93 | the recursive on-chain encoder with its accumulator produces unsigned LEB128 |
| `TmplSig.Leb128RoundTrip` | packages/wormhole_sdk/algorand/wormhole_core.py:77-93 | decoding an encoding, whatever follows it, gives the number and the rest back |
| `TmplSig.UvarintPrefixFree` | packages/wormhole_sdk/algorand/wormhole_core.py:77-93 | no encoding is a proper prefix of another: equal concatenations have equal numbers and equal rests |
| `TmplSig.Populate` | packages/wormhole_sdk/algorand/TmplSig.py:58-85 | for any template with increasing label positions, in-place splicing with a running shift yields the chunks interleaved with the encoded fields |
| `TmplSig.PopulatedIsPreimage` | packages/wormhole_sdk/algorand/TmplSig.py:58-97 | the populated program, after the word Program, is the string that get_sig_address hashes |
| `TmplSig.ClientAddress` | packages/wormhole_sdk/algorand/admin.py:543-555 | the address computed off chain is get_sig_address of the same index and emitter |
| `TmplSig.PreimageInjective` | packages/wormhole_sdk/algorand/wormhole_core.py:95-124 | the hashed string determines index, emitter, application id and application address |
| `TmplSig.SlotsDoNotAlias` | packages/wormhole_sdk/algorand/wormhole_core.py:95-124 | two slots of an application have the same address if and only if index and emitter are the same |
| `TmplSig.ShippedTemplateIsValid` | packages/wormhole_sdk/algorand/TmplSig.py:39-56 | the template in use has four labels at increasing positions inside the program |
| `LocalBlob.AppStorage.Zero` | packages/wormhole_sdk/algorand/local_blob.py:54-69 | opting in succeeds once per account and leaves a blob of 1905 zero bytes |
| `LocalBlob.AppStorage.GetByte` | packages/wormhole_sdk/algorand/local_blob.py:71-78 | reads the byte of the flat blob, and succeeds exactly for positions below 1905, modulo the 32512 positions that one-byte page keys can tell apart |
| `LocalBlob.AppStorage.SetByte` | packages/wormhole_sdk/algorand/local_blob.py:80-89 | replaces one byte of the flat blob, nothing else in this or another account, for the same positions |
| `LocalBlob.AppStorage.Read` | packages/wormhole_sdk/algorand/local_blob.py:91-132 | returns the flat slice across any number of pages; succeeds exactly when start and end lie in the blob in the same round of page keys, or when the end's page precedes the start's, and then without touching the account |
| `LocalBlob.ReadPages` | packages/wormhole_sdk/algorand/local_blob.py:109-132 | the page loop yields the flat slice exactly when the range lies in the blob; a range that reaches page 15 or wraps around is refused |
| `LocalBlob.WritePage` | packages/wormhole_sdk/algorand/local_blob.py:177-207 | a partial page is read back and patched and must exist, a whole page is replaced |
| `LocalBlob.WritePages` | packages/wormhole_sdk/algorand/local_blob.py:148-212 | the page loop performs the flat splice and counts the whole buffer, exactly when the end is below 1905 |
| `LocalBlob.AppStorage.Write` | packages/wormhole_sdk/algorand/local_blob.py:148-212 | the flat splice on one account, returning the buffer length; all other bytes, tags and accounts unchanged; no effect when it fails |
| `LocalBlob.AppStorage.SetMeta` | packages/wormhole_sdk/algorand/local_blob.py:134-141 | sets the tag and leaves the blob as it was |
| `LocalBlob.PagePut` | packages/wormhole_sdk/algorand/local_blob.py:27-39 | replacing part of one page is a splice of the flat blob at 127 times the page number plus the offset |
| `LocalBlob.PageSlice` | packages/wormhole_sdk/algorand/local_blob.py:27-39 | part of a page is the slice of the flat blob at the corresponding position |
| `Replay.CheckForDuplicate` | packages/wormhole_sdk/algorand/wormhole_core.py:329-361 | succeeds exactly for a version-1 VAA with the right bitmap account whose message is not consumed, and then the bitmaps are the consumed set plus this message |
| `Replay.FreshExactly` | packages/wormhole_sdk/algorand/wormhole_core.py:329-361 | for a marshalled VAA the condition is: version 1, the account is the slot of its chain and emitter for its sequence divided by 15240, and (chain and emitter, sequence) was not consumed |
| `Replay.MessageEncoded` | packages/wormhole_sdk/algorand/wormhole_core.py:340-345 | the message that the contracts read from a marshalled VAA is its chain and emitter, and its sequence |
| `Replay.TestAndSet` | packages/wormhole_sdk/algorand/token_bridge.py:937-967 | tests the message's bit and sets it: succeeds exactly when the account is there and the message is not consumed |
| `Replay.BitmapsMarked` | packages/wormhole_sdk/algorand/wormhole_core.py:349-358 | setting one bit consumes that (emitter, sequence) pair and no other, in any account |
| `Replay.BitmapsKept` | packages/wormhole_sdk/algorand/wormhole_core.py:329-361 | writes to other slots and opting in with zeros change no message's bit |
| `Replay.OtherSlot` | packages/wormhole_sdk/algorand/wormhole_core.py:95-124 | slots with an emitter of another length than 34 bytes are never replay bitmaps |
| `Replay.AcceptedOnce` | packages/wormhole_sdk/algorand/wormhole_core.py:329-361 | if the log has no message twice, an accepted message was new and no later accepted group carries it |
| `Replay.EachAcceptedOnce` | packages/wormhole_sdk/algorand/wormhole_core.py:329-361 | no two accepted groups of a run carry the same message, none carries one twice, and none one consumed before |
| `Replay.SameBit` | packages/wormhole_sdk/algorand/wormhole_core.py:346-352 | block, byte and bit together determine the sequence number |
| `Replay.IntDivExact` | packages/wormhole_sdk/algorand/admin.py:815-817 | truncating the rounded floating-point quotient is integer division, for numerators below 2^53, the divisors in use and IEEE rounding |
| `Replay.UnderflowAllowed` | packages/wormhole_sdk/algorand/admin.py:815-817 | the rounding assumed may underflow to zero below the quotients in use |
| `Replay.Locate` | packages/wormhole_sdk/algorand/admin.py:815-817 | the client's page and byte are the contract's byte offset |
| `Replay.CheckBitsSet` | packages/wormhole_sdk/algorand/admin.py:804-827 | the off-chain check reports the stored bit for every sequence below 2^53, in whatever order the node lists the pages |
| `VaaVerify.SigCheck` | packages/wormhole_sdk/algorand/vaa_verify.py:49-105 | approves exactly the strings of whole 66-byte records that each recover to their key |
| `VaaVerify.VaaVerifyProgram` | packages/wormhole_sdk/algorand/vaa_verify.py:107-118 | approves exactly fee-free application calls without rekeying whose chunk passes |
| `VerifyVaa.WalkBack` | packages/wormhole_sdk/algorand/wormhole_core.py:432-451 | stops at the start of the maximal run of verifySigs and nop calls before the transaction |
| `VerifyVaa.TakeSignature` | packages/wormhole_sdk/algorand/wormhole_core.py:482-492 | succeeds exactly when the guardian is below 32 and the set size and not seen before |
| `VerifyVaa.TakeChunk` | packages/wormhole_sdk/algorand/wormhole_core.py:466-498 | any chunk, whole records or not, is taken exactly when it continues the VAA's signatures and every record it touches names a new guardian; yields their keys in order |
| `VerifyVaa.TakeRecords` | packages/wormhole_sdk/algorand/wormhole_core.py:482-492 | the inner loop advances record by record up to the end of the chunk, also when the last record is cut off |
| `VerifyVaa.WholeChunk` | packages/wormhole_sdk/algorand/wormhole_core.py:466-498 | for whole records the keys collected are those of the guardians named in the chunk |
| `VerifyVaa.TakeTxn` | packages/wormhole_sdk/algorand/wormhole_core.py:454-505 | one transaction of the forward walk is accepted exactly when it is in order and its chunk continues the signatures |
| `VerifyVaa.WalkForward` | packages/wormhole_sdk/algorand/wormhole_core.py:453-510 | the forward walk and the final offset check succeed exactly when the chunks concatenate to all of the VAA's signatures |
| `VerifyVaa.LoadSet` | packages/wormhole_sdk/algorand/wormhole_core.py:379-406 | succeeds exactly when the named set is stored, tagged, non-empty and unexpired and the VAA claims a quorum of it; the digest it loads is spelled out in `VerifyVaa.Soundness` |
| `VerifyVaa.Run` | packages/wormhole_sdk/algorand/wormhole_core.py:365-513 | verifyVAA approves a group if and only if it satisfies the declarative acceptance condition |
| `VerifyVaa.Soundness` | packages/wormhole_sdk/algorand/wormhole_core.py:365-513 | approval implies: the signature bytes are the preceding chunks in order, all calls of the run are unrekeyed calls of this application with the same accounts and for this VAA, the m signers are distinct with 3m > 2n, and every signature recovers, over keccak256 of keccak256 of the body, to a public key whose keccak256 ends in the twenty bytes stored for the guardian named |
| `VerifyVaa.SignedSpelledOut` | packages/wormhole_sdk/algorand/wormhole_core.py:393-406 | in bytes: signature j of a quorum recovers, over the body hashed twice, to the stored key of the guardian it names |
| `VerifyVaa.WalkStartIs` | packages/wormhole_sdk/algorand/wormhole_core.py:432-451 | the run before the call is verifySigs and nop calls, as far back as these go |
| `VerifyVaa.WalkVouched` | packages/wormhole_sdk/algorand/wormhole_core.py:453-510 | every signature accounted for by a walk recovers to the key of the guardian it names |
| `VerifyVaa.KeysForAt` | packages/wormhole_sdk/algorand/wormhole_core.py:488-489 | key number k collected for a chunk belongs to the guardian of record k |
| `Client.CollectKeys` | packages/wormhole_sdk/algorand/admin.py:881-888 | the client's key string is the keys of the guardians named in the chunk |
| `Client.BuildBlock` | packages/wormhole_sdk/algorand/admin.py:876-899 | one verifySigs transaction: nine signatures at most, their keys, and the digest |
| `Client.BuildGroup` | packages/wormhole_sdk/algorand/admin.py:865-908 | one transaction per block of signatures, none empty, then verifyVAA |
| `Client.BlockCount` | packages/wormhole_sdk/algorand/admin.py:865-869 | every block is non-empty and the blocks end with the last signature |
| `Client.ClientAgrees` | packages/wormhole_sdk/algorand/admin.py:865-908 | for a VAA that Go verifies with signers below 32, the client's group passes the stateless program and verifyVAA, whatever follows in the group |
| `Client.AgreeExactly` | packages/wormhole_sdk/algorand/wormhole_core.py:432-510 | for a VAA that Go verifies, the contract approves the client's group if and only if every signer is below 32 |
| `Client.HighSignerExists` | packages/wormhole_sdk/sdk/vaa/structs.go:776-798 | such VAAs exist: 33 guardians all sign, Go verifies it, and guardian 32 is among the signers |
| `Client.SmallSetsAreLow` | packages/wormhole_sdk/sdk/vaa/structs.go:707-798 | against at most 32 keys every verified VAA has signers below 32 |
| `Vaa.Marshal` | packages/wormhole_sdk/sdk/vaa/structs.go:801-817 | the buffer is the specified encoding of header, signatures and body |
| `Vaa.UnmarshalBody` | packages/wormhole_sdk/sdk/vaa/structs.go:564-607 | accepts exactly 51 bytes or more, and the body read re-encodes to those bytes |
| `Vaa.UnmarshalSignatures` | packages/wormhole_sdk/sdk/vaa/structs.go:632-648 | reads exactly the counted records, or fails if the data is short |
| `Vaa.Unmarshal` | packages/wormhole_sdk/sdk/vaa/structs.go:610-651 | accepts exactly first byte 1 and length at least 57 + 66 times the count byte; marshalling the result gives the input |
| `Vaa.RoundTrip` | packages/wormhole_sdk/sdk/vaa/structs.go:801-817 | unmarshalling a marshalled VAA gives it back if and only if it is version 1, has at most 255 signatures and a whole-second uint32 timestamp |
| `Vaa.EncodeInjective` | packages/wormhole_sdk/sdk/vaa/structs.go:801-817 | canonical VAAs with equal encodings are equal |
| `Vaa.EncodeLayout` | packages/wormhole_sdk/sdk/vaa/structs.go:801-817 | offsets of version, set index, count, signatures and body |
| `Vaa.EncodedSignature` | packages/wormhole_sdk/sdk/vaa/structs.go:801-817 | signature j is the record at offset 6 + 66 j |
| `Vaa.BodyLayout` | packages/wormhole_sdk/sdk/vaa/structs.go:856-867 | offsets of the body fields |
| `Quorum.CalculateQuorum` | packages/wormhole_sdk/sdk/vaa/quorum.go:7-22 | the smallest count above two thirds; a negative count is refused |
| `Quorum.VerifySignature` | packages/wormhole_sdk/sdk/vaa/structs.go:693-703 | accepts exactly when the signature recovers to the address |
| `Quorum.CheckNext` | packages/wormhole_sdk/sdk/vaa/structs.go:715-740 | one signature: index in range and increasing, valid, and signer not seen before |
| `Quorum.VerifySignatures` | packages/wormhole_sdk/sdk/vaa/structs.go:707-743 | accepts exactly valid signatures of strictly increasing guardians with distinct addresses |
| `Quorum.Verify` | packages/wormhole_sdk/sdk/vaa/structs.go:776-798 | accepts exactly a non-empty quorum of such signatures over this VAA's digest, spelled out in `Quorum.VerifiedSpelledOut`; a nil list is refused |
| `Quorum.VerifiedSpelledOut` | packages/wormhole_sdk/sdk/vaa/structs.go:655-798 | verified if and only if more than two thirds of the indices, increasing and with distinct addresses, each have a signature that recovers, over keccak256 of keccak256 of the body, to a key whose keccak256 ends in that address |
| `Quorum.QuorumIntersection` | packages/wormhole_sdk/sdk/vaa/structs.go:776-798 | two VAAs verified against the same n keys share strictly more than n/3 signing indices |
| `Quorum.CorrectGuardianSignedBoth` | packages/wormhole_sdk/sdk/vaa/structs.go:776-798 | with at most n/3 faulty guardians, some other guardian's key validly signed both |
| `Guardians.Serialize` | packages/wormhole_sdk/sdk/vaa/payloads.go:266-283 | the buffer is module, action, chain, index, count and the keys in order |
| `Guardians.PayloadFields` | packages/wormhole_sdk/sdk/vaa/payloads.go:266-283 | where each field of the update payload sits |
| `Guardians.KeyBytesInjective` | packages/wormhole_sdk/sdk/vaa/payloads.go:277-280 | the serialized keys determine the ordered key list |
| `Guardians.EmitterAt` | packages/wormhole_sdk/algorand/wormhole_core.py:340-345 | for a VAA with any number of signatures, Go's emitter and sequence are at the offsets the contracts use |
| `Guardians.PayloadAt` | packages/wormhole_sdk/algorand/wormhole_core.py:219-220 | any piece of Go's payload is at the contract's payload offset |
| `GuardianSets.FreshExpiry` | packages/wormhole_sdk/algorand/wormhole_core.py:264-273 | a current set of any size carries no expiry if and only if its bytes 1000 to 1007, where there are any, are zero |
| `GuardianSets.FiftyKeysExpire` | packages/wormhole_sdk/algorand/wormhole_core.py:264-273 | up to 50 keys, a fresh set is read as having an expiry if and only if there are 50 and the last one does not end in a zero byte |
| `GuardianSets.StampedExpiry` | packages/wormhole_sdk/algorand/wormhole_core.py:272-273 | a superseded set of any size carries its end |
| `GuardianSets.FreshImage` | packages/wormhole_sdk/algorand/wormhole_core.py:269-270 | a set written into a blank blob makes exactly the image of a current set |
| `GuardianSets.ImageHolds` | packages/wormhole_sdk/algorand/wormhole_core.py:269-273 | a current set is stored as accepted, whatever its size; with at most 49 keys it stays so after it is superseded |
| `GuardianSets.RotationKept` | packages/wormhole_sdk/algorand/wormhole_core.py:190-304 | writes to other slots and opt-ins keep the rotation invariant: tags, blank blobs, and the exact content of every accepted set's blob |
| `GuardianSets.FirstInstalled` | packages/wormhole_sdk/algorand/wormhole_core.py:239-274 | the boot set establishes the rotation invariant at its own index, with its bytes on record |
| `GuardianSets.NextInstalled` | packages/wormhole_sdk/algorand/wormhole_core.py:239-274 | installing the next set and stamping the current one keeps the invariant one index further, with the new set and the end of the old one on record |
| `GuardianSets.TaggedIndex` | packages/wormhole_sdk/algorand/wormhole_core.py:379-380 | a set's blob is tagged if and only if its index is between the boot index and the current one |
| `WormholeCore.Core.constructor` | packages/wormhole_sdk/algorand/wormhole_core.py:557-563 | a new contract has empty storage and satisfies the invariant with nothing consumed and no set |
| `WormholeCore.Core.Optin` | packages/wormhole_sdk/algorand/wormhole_core.py:126-153 | succeeds exactly for a seeded, rekeyed first opt-in; the new blob is blank and the invariant is kept |
| `WormholeCore.Core.Verify` | packages/wormhole_sdk/algorand/wormhole_core.py:365-513 | in every reachable state verifyVAA approves exactly the acceptable groups |
| `WormholeCore.Core.Consume` | packages/wormhole_sdk/algorand/wormhole_core.py:329-361 | consumes a fresh message, appends it to the log and keeps the invariant; otherwise changes nothing |
| `WormholeCore.ParseSet` | packages/wormhole_sdk/algorand/wormhole_core.py:239-269 | a guardian update that parses has at least one key, all its keys present and a uint32 index |
| `WormholeCore.Core.StoreSet` | packages/wormhole_sdk/algorand/wormhole_core.py:263-274 | writes the set, stamps another blob's expiry one day ahead and tags the new blob, exactly when the accounts are there, at most 95 keys are to be stored and the date fits 64 bits; otherwise does nothing |
| `WormholeCore.Core.InstallFirst` | packages/wormhole_sdk/algorand/wormhole_core.py:239-274 | at boot: current, first and next index follow the new set, its bytes go on record, and only its own blob is written; up to 95 keys |
| `WormholeCore.Core.InstallNext` | packages/wormhole_sdk/algorand/wormhole_core.py:239-274 | later: the current index grows by exactly one, the new set and the end of the old one go on record, the superseded blob gets its stamp and nothing else, and no other blob changes; up to 95 keys |
| `WormholeCore.Core.NewGuardianSet` | packages/wormhole_sdk/algorand/wormhole_core.py:239-275 | accepted exactly when the account is the new set's blob and, after boot, the index is the next one; only that blob and the superseded one are written |
| `WormholeCore.Core.HdlGovernance` | packages/wormhole_sdk/algorand/wormhole_core.py:190-304 | the four actions: accepted exactly when allowed, with exactly the stated effect on globals, the two guardian blobs and the payment made; what the bytes of each action mean is `GovernancePayloads.ActionExactly` |
| `WormholeCore.Core.Init` | packages/wormhole_sdk/algorand/wormhole_core.py:306-323 | succeeds exactly once, for the creator, with a fresh and allowed VAA; touches the bitmap and the new set only, and pays exactly what a Transfer action says; a failure leaves no trace |
| `WormholeCore.Core.Governance` | packages/wormhole_sdk/algorand/wormhole_core.py:515-542 | succeeds exactly for a fresh, allowed VAA that the previous transaction verified; an update adds one set and one end to the record and keeps all others; only the bitmap and the two sets are touched |
| `WormholeCore.FollowsVerifyMeans` | packages/wormhole_sdk/algorand/wormhole_core.py:515-542 | the call that governance follows is an unrekeyed verifyVAA of the same VAA, by the same sender, with the same accounts, field by field |
| `GovernancePayloads.ActionExactly` | packages/wormhole_sdk/algorand/wormhole_core.py:190-304 | for every VAA with any number of signatures: the action is that of its payload, read at the payload's own offsets, if it comes from chain 1, address 4, and none otherwise |
| `GovernancePayloads.FeeReadBack` | packages/wormhole_sdk/algorand/wormhole_core.py:276-282 | a fee payload sets exactly that fee on Algorand, and is refused for every other target chain, 0 included |
| `GovernancePayloads.PayoutReadBack` | packages/wormhole_sdk/algorand/wormhole_core.py:283-301 | a payout payload pays exactly that amount to that destination on Algorand, and is refused for every other target chain |
| `GovernancePayloads.UpgradeReadBack` | packages/wormhole_sdk/sdk/vaa/payloads.go:251-264 | Go's upgrade payload approves exactly that hash on Algorand, and is refused for every other target chain |
| `GovernancePayloads.SerializeUpgrade` | packages/wormhole_sdk/sdk/vaa/payloads.go:251-264 | the buffer is "Core" padded to 32 bytes, action 1, chain and contract |
| `GovernancePayloads.GovernanceTakesEffect` | packages/wormhole_sdk/algorand/wormhole_core.py:515-542 | an accepted governance call on a VAA with such a payload leaves exactly that fee or hash, or makes exactly that payment and no other; the VAA comes from the governance emitter, its module is Core, and its target is Algorand or, for a guardian set, all chains |
| `GovernancePayloads.CoreNames` | packages/wormhole_sdk/algorand/wormhole_core.py:185-555 | the names of the core's methods, storage slots and tags, in characters |
| `WormholeCore.Core.SignedByCurrentSet` | packages/wormhole_sdk/algorand/wormhole_core.py:204-209 | whatever governance applies was signed by a quorum of the guardian set current at that moment, whose blob is exactly what was accepted |
| `WormholeCore.Core.Increment` | packages/wormhole_sdk/algorand/wormhole_core.py:178-186 | adds one to the counter in one blob and tags it, unless it would overflow 64 bits; no other blob changes |
| `WormholeCore.Core.Advance` | packages/wormhole_sdk/algorand/wormhole_core.py:178-184 | the sender's counter grows by one and the number goes on the publication log; no other account's storage changes |
| `WormholeCore.Core.PublishMessage` | packages/wormhole_sdk/algorand/wormhole_core.py:158-188 | succeeds exactly with the sender's own counter blob and the fee paid; logs the next number of this sender and touches no other account |
| `Counters.CountersAdvanced` | packages/wormhole_sdk/algorand/wormhole_core.py:158-188 | advancing one sender's counter extends that sender's log by its number and leaves every other sender's counter |
| `Counters.CountersKept` | packages/wormhole_sdk/algorand/wormhole_core.py:158-188 | writes to other slots and blank opt-ins change no sender's counter |
| `Counters.EachNumberOnce` | packages/wormhole_sdk/algorand/wormhole_core.py:178-184 | every number up to a sender's count was handed out exactly once |
| `Counters.NumbersGrow` | packages/wormhole_sdk/algorand/wormhole_core.py:178-184 | a sender's later message has the greater number |
| `WormholeCore.Core.Execute` | packages/wormhole_sdk/algorand/wormhole_core.py:548-555 | every routed call keeps the invariant and what is on record; a refused call changes nothing; an accepted one consumes its own message if it is init or governance and none otherwise; payments, other applications' calls, nop, verifySigs and verifyVAA change nothing and are accepted exactly as stated; only publishMessage extends the publication log; opt-in, publishMessage and init succeed exactly under their own conditions, and only publishMessage publishes |
| `WormholeCore.HalfwayNext` | packages/wormhole_sdk/algorand/wormhole_core.py:544-589 | in a group around one governance call, each step keeps the state of the group or refuses it |
| `WormholeCore.Core.ExecuteGroup` | packages/wormhole_sdk/algorand/wormhole_core.py:544-589 | a group is atomic and an accepted one consumes exactly the messages of its calls; a group around one governance call is accepted exactly when every transaction would be in the state before the group, and then leaves the action on record |
| `WormholeCore.Core.Run` | packages/wormhole_sdk/algorand/wormhole_core.py:544-589 | after any run the log is what it was plus the messages of the accepted groups, and no two accepted groups carry the same message; the bitmaps are the log, the sets rotated one by one and are stored as accepted, and the counters are the lengths of the publication logs |
| `WormholeCore.Core.SetsInReachableState` | packages/wormhole_sdk/algorand/wormhole_core.py:190-323 | in every reachable state the tagged sets are exactly those from the boot index to the current one; each blob is exactly the accepted set, with its end once superseded; with at most 49 keys, superseded sets carry a non-zero expiry and the current one none |
| `WormholeCore.Core.SupersededExpires` | packages/wormhole_sdk/algorand/wormhole_core.py:388-391 | from one day after it was superseded, no VAA is verified against a set |
| `WormholeCore.Core.SupersessionEnds` | packages/wormhole_sdk/algorand/wormhole_core.py:272-273 | the end that an accepted update records for the superseded set is 86400 seconds after the call |
| `WormholeCore.Core.SequencesInReachableState` | packages/wormhole_sdk/algorand/wormhole_core.py:158-188 | in every reachable state a sender's published numbers are 1, 2, 3 and so on up to its counter, each once and in order |
| `WormholeCore.Core.DuplicateIffConsumed` | packages/wormhole_sdk/algorand/wormhole_core.py:329-361 | in every reachable state a message is refused as a duplicate if and only if it was consumed |
| `WormholeCore.Core.ClientSees` | packages/wormhole_sdk/algorand/admin.py:804-827 | in every reachable state the client's check reports exactly whether the message was consumed, for sequences below 2^53 |
| `EndToEnd.UpdateParses` | packages/wormhole_sdk/algorand/wormhole_core.py:239-269 | the contract's fixed offsets read back the index, the count and the keys that Go serialized |
| `EndToEnd.Boot` | packages/wormhole_sdk/sdk/vaa/governance.go:14-29 | for every list of 1 to 255 keys, serializing, wrapping, marshalling and booting puts that set on record, exactly when at most 95 are to be stored, the accounts exist and the message is fresh |
| `EndToEnd.PrepareUpdate` | packages/wormhole_sdk/algorand/admin.py:829-925 | the client's accounts and group for an update; the bitmap number is exact for sequences below 2^53 |
| `EndToEnd.UpdateAccepted` | packages/wormhole_sdk/algorand/wormhole_core.py:544-589 | the group of an update is accepted exactly under the conditions that client and ledger can check |
| `EndToEnd.SubmitUpdate` | packages/wormhole_sdk/algorand/admin.py:829-925 | after boot: for an update that Go verifies against the current set with signers below 32, the client computes the accounts and cuts the group; the group with its verifySigs, verifyVAA, governance and nop calls is accepted exactly when the index is the next one, at most 95 keys are to be stored, the current set is live, the accounts exist, the client's division found the right bitmap and the message is fresh; then the set is on record, and otherwise nothing changed |
| `EndToEnd.SurvivesRun` | packages/wormhole_sdk/algorand/wormhole_core.py:544-589 | over any run of groups an accepted set stays what Go serialized |
| `EndToEnd.LoadsAccepted` | packages/wormhole_sdk/algorand/wormhole_core.py:379-406 | in every reachable state verifyVAA's checks on the set hold exactly for accepted sets that are live, and load the accepted count and keys |
| `EndToEnd.SmallSetsLive` | packages/wormhole_sdk/algorand/wormhole_core.py:388-391 | the current set is always live if it has at most 49 keys |
| `EndToEnd.StaysExpired` | packages/wormhole_sdk/algorand/wormhole_core.py:388-391 | over any run of groups a superseded set stays refused from one day after its supersession |
| `EndToEnd.SetReadBack` | packages/wormhole_sdk/algorand/wormhole_core.py:379-386 | in every reachable state and for every set on record, verifyVAA loads it exactly for its own account, with a quorum claimed and while it is live, and gets the index, the count and the ordered keys of the update, and no other key list: for good with at most 49 keys, while it is current with up to 95 |
| `Transfers.FactorScales` | packages/wormhole_sdk/algorand/token_bridge.py:181-187 | the factor exists exactly for at most 19 decimals, and scaling by it leaves eight decimals, or the asset's own if fewer |
| `Transfers.HeadFields` | packages/wormhole_sdk/algorand/token_bridge.py:791-804 | where each field of a transfer payload sits |
| `Transfers.DecodeTransferPayloadHdr` | packages/wormhole_sdk/sdk/vaa/structs.go:888-933 | Go's decoder accepts exactly types 1 and 3 of at least 101 bytes and reads the fields |
| `Transfers.GoReadsTransfer` | packages/wormhole_sdk/sdk/vaa/structs.go:888-933 | Go's decoder, applied to an encoded transfer with anything behind it, returns exactly its kind, amount, origin and target |
| `Transfers.ParsesWithFee` | packages/wormhole_sdk/algorand/token_bridge.py:524-561 | completeTransfer reads a type-1 payload back as amount less fee, fee, origin and target, whatever follows it, and refuses a fee above the amount |
| `Transfers.ParsesWithPayload` | packages/wormhole_sdk/algorand/token_bridge.py:524-561 | completeTransfer reads a type-3 payload back without a fee |
| `Transfers.ParsesOnly` | packages/wormhole_sdk/algorand/token_bridge.py:524-561 | nothing else parses: every payload that completeTransfer reads is a type-1 transfer to chain 8 with its fee field, or a type-3 transfer to chain 8 |
| `Transfers.Undusted` | packages/wormhole_sdk/algorand/token_bridge.py:742-756 | something is left after scaling exactly for deposits that reach the factor |
| `Transfers.Conservation` | packages/wormhole_sdk/algorand/token_bridge.py:563-654 | receiver plus relayer get exactly the deposit rounded down to a multiple of the factor, without 64-bit overflow and losing less than one factor |
| `TokenBridge.TrimBytes` | packages/wormhole_sdk/algorand/token_bridge.py:157-179 | the longest prefix without a zero byte |
| `TokenBridge.BodyRecords` | packages/wormhole_sdk/algorand/token_bridge.py:456-461 | the stored body puts the token's address at 60 and its chain at 92, and leaves the asset id |
| `TokenBridge.AssetRecorded` | packages/wormhole_sdk/algorand/token_bridge.py:388-461 | recording one token leaves every other token's record alone |
| `TokenBridge.Bridge.constructor` | packages/wormhole_sdk/algorand/token_bridge.py:982-987 | a new bridge has empty storage and satisfies the invariant with nothing consumed and no assets |
| `TokenBridge.Bridge.Optin` | packages/wormhole_sdk/algorand/token_bridge.py:998-1025 | succeeds exactly for a seed payment of the right amount to the sender and an argument-free first opt-in that rekeys it to the application; keeps the invariant |
| `TokenBridge.Bridge.Consume` | packages/wormhole_sdk/algorand/token_bridge.py:936-967 | consumes a fresh message and keeps bitmaps and assets; otherwise changes nothing |
| `TokenBridge.Bridge.Record` | packages/wormhole_sdk/algorand/token_bridge.py:424-461 | a token's first attestation fixes its asset, later ones keep it |
| `TokenBridge.Bridge.Reserve` | packages/wormhole_sdk/algorand/token_bridge.py:424-455 | a blob without an asset id gets the new one, a blob with one keeps it |
| `TokenBridge.Bridge.ReceiveAttest` | packages/wormhole_sdk/algorand/token_bridge.py:318-464 | succeeds exactly for a fresh attestation of a registered bridge in a group of the right shape; a new asset is created only for a new token |
| `TokenBridge.VerifiedByCoreMeans` | packages/wormhole_sdk/algorand/token_bridge.py:492-510 | the verifyVAA call that a bridge call relies on, field by field: same VAA, sender and accounts, by the core application, nothing closed out or rekeyed |
| `TokenBridge.AttestGroupMeans` | packages/wormhole_sdk/algorand/token_bridge.py:335-387 | the five transactions of an attestation, field by field |
| `TokenBridge.AttestParses` | packages/wormhole_sdk/algorand/token_bridge.py:388-422 | an attestation payload, whatever VAA carries it, is read back as that token; the asset created has at most eight decimals and symbol characters and is cut at the first zero, and nothing else |
| `TokenBridge.AttestOnly` | packages/wormhole_sdk/algorand/token_bridge.py:395-404 | exactly the payloads of type 2 of at least 100 bytes are attestations |
| `TokenBridge.EnterRegistered` | packages/wormhole_sdk/algorand/token_bridge.py:274-283 | registering a chain that has no bridge yet keeps every emitter on record |
| `TokenBridge.Bridge.EmittersInReachableState` | packages/wormhole_sdk/algorand/token_bridge.py:515-522 | in every reachable state, each VAA that was attested or paid carries the emitter that an accepted registration named for its chain, or, paid on chain 8, the bridge's own address; a chain has one registered emitter |
| `TokenBridge.Bridge.AssetParams` | packages/wormhole_sdk/algorand/token_bridge.py:398-422 | name and symbol cut at the first zero, at most eight characters of symbol and eight decimals |
| `TokenBridge.Bridge.Identity` | packages/wormhole_sdk/algorand/token_bridge.py:388-461 | in every reachable state an attested token's blob holds its first asset id and its identity at 0, 60 and 92 |
| `TokenBridge.Bridge.Governance` | packages/wormhole_sdk/algorand/token_bridge.py:219-292 | registers a chain once or approves an upgrade, exactly for a fresh verified VAA of the current set, and puts registrations on record |
| `GovernancePayloads.BridgeActionExactly` | packages/wormhole_sdk/algorand/token_bridge.py:240-292 | for every VAA with any number of signatures: the bridge's action is that of its payload, read at the payload's own offsets, if it comes from chain 1, address 4, and none otherwise |
| `GovernancePayloads.RegistrationReadBack` | packages/wormhole_sdk/sdk/vaa/payloads.go:285-291 | Go's registration payload registers exactly that emitter for exactly that chain |
| `GovernancePayloads.BridgeUpgradeReadBack` | packages/wormhole_sdk/sdk/vaa/payloads.go:293-295 | Go's upgrade payload approves exactly that hash on Algorand, and is refused for every other target chain |
| `GovernancePayloads.SerializeRegisterChain` | packages/wormhole_sdk/sdk/vaa/payloads.go:285-291 | the buffer is "TokenBridge" padded to 32 bytes, action 1, chain 0, then chain and emitter |
| `GovernancePayloads.SerializeBridgeGovernance` | packages/wormhole_sdk/sdk/vaa/payloads.go:464-474 | the buffer is the padded module name, action, chain and payload |
| `GovernancePayloads.BridgeNames` | packages/wormhole_sdk/algorand/token_bridge.py:454-980 | the names of the bridge's methods, storage slots and tags, in characters |
| `TokenBridge.Bridge.Resolve` | packages/wormhole_sdk/algorand/token_bridge.py:563-620 | the asset and amounts read from the passed blob are those of the recorded token, or of the native asset scaled back; which these are is `TokenBridge.Bridge.RedeemsAs` |
| `TokenBridge.Bridge.CompleteTransfer` | packages/wormhole_sdk/algorand/token_bridge.py:466-654 | releases exactly what the abstract state determines (`TokenBridge.Bridge.RedeemsExactly`, `TokenBridge.Bridge.RedeemsAs`), once per message, and puts the VAA on record; a refusal changes nothing |
| `TokenBridge.Bridge.RedeemsExactly` | packages/wormhole_sdk/algorand/token_bridge.py:466-654 | a transfer, native or wrapped, is paid if and only if its VAA was verified by the core in the group and not consumed, its emitter is the one registered for its chain or this bridge on chain 8, its fee is at most the amount, the account is the token's own blob or the native escrow, a native amount fits 64 bits, and for type 3 the next call hands the VAA to the application in the target |
| `TokenBridge.Bridge.RedeemsAs` | packages/wormhole_sdk/algorand/token_bridge.py:563-654 | what is paid: of a wrapped token its recorded asset from its own blob, amount less fee to the target and the fee to the sender; of a native asset the same times the factor from its escrow; of type 3 the whole amount without a fee to the address of the application in the target |
| `TokenBridge.Bridge.RedeemsOnly` | packages/wormhole_sdk/algorand/token_bridge.py:524-561 | nothing else is ever paid: the payload of every redemption is a type-1 or type-3 transfer to chain 8 |
| `TokenBridge.Bridge.Origin` | packages/wormhole_sdk/algorand/token_bridge.py:758-781 | for a wrapped asset the blob reads give exactly the recorded token, for a native one its own id on chain 8 |
| `TokenBridge.Bridge.SendTransfer` | packages/wormhole_sdk/algorand/token_bridge.py:686-826 | succeeds if and only if, field by field: the transaction before is a payment, or a transfer of this very asset, by the sender, to the native escrow or to the blob of the attested token with this asset, of at least the factor and the fee, closing out and rekeying nothing, and the message fee was paid two transactions back; the payload's amount times the factor is at most the deposit, and it carries origin, target and fee |
| `TokenBridge.Bridge.AttestedThenSent` | packages/wormhole_sdk/algorand/token_bridge.py:763-775 | after any run of calls following a token's first attestation, sendTransfer reads back the first asset and exactly that address and chain |
| `TokenBridge.Bridge.NativeRedeems` | packages/wormhole_sdk/algorand/token_bridge.py:524-608 | the payload of a native deposit always parses and scales back to all but the dust |
| `TokenBridge.Bridge.DepositComesBack` | packages/wormhole_sdk/algorand/token_bridge.py:466-654 | whatever VAA carries that payload, its redemption releases the same asset from its escrow, the deposit up to dust, the sender's fee to the relayer and the rest to the target, or without a fee to the application in the target |
| `TokenBridge.Bridge.Step` | packages/wormhole_sdk/algorand/token_bridge.py:972-980 | every call is accepted exactly under its own condition and keeps the invariant, the assets and the registered emitters; a refused one changes nothing; an accepted one consumes exactly its message, repeats a verifyVAA call of its group, and puts an attested or paid VAA on record |
| `TokenBridge.Bridge.ExecuteGroup` | packages/wormhole_sdk/algorand/token_bridge.py:972-980 | the calls of a group are atomic, and an accepted group consumes exactly their messages |
| `TokenBridge.Bridge.Run` | packages/wormhole_sdk/algorand/token_bridge.py:972-980 | after any run the log is what it was plus the messages of the accepted groups, no two accepted groups carry the same message, the bitmaps are the log, every token still has its first asset and every chain its first emitter, and the VAAs attested and paid are on record |
| `TokenBridge.RecordKeeps` | packages/wormhole_sdk/algorand/token_bridge.py:424-461 | recording a token keeps the bitmaps and the other tokens |
| `Escrow.Paid` | packages/wormhole_sdk/algorand/token_bridge.py:623-650 | a payout succeeds if the account holds amount plus fee; that account loses at most these, and no other account loses anything, whoever the receivers are |
| `Escrow.PaidExactly` | packages/wormhole_sdk/algorand/token_bridge.py:623-650 | between different accounts the escrow loses amount plus fee, the receiver gets the amount, the relayer the fee, and nothing else moves |
| `Escrow.PublishedUnits` | packages/wormhole_sdk/algorand/token_bridge.py:791-804 | what is published for a native asset counts for that asset and no other |
| `Escrow.Takings` | packages/wormhole_sdk/algorand/token_bridge.py:563-654 | a native release takes the payload's amount times the factor, from the asset's own escrow; any other is paid out of a token's blob |
| `Escrow.TransferCovers` | packages/wormhole_sdk/algorand/token_bridge.py:709-737 | a transfer by anybody keeps every escrow covered, and its amount is surplus where it went |
| `Escrow.SendCovers` | packages/wormhole_sdk/algorand/token_bridge.py:709-756 | publishing a deposit uses up no more than that surplus |
| `Escrow.RedeemCovers` | packages/wormhole_sdk/algorand/token_bridge.py:563-654 | a release takes from an escrow no more than its payload enters as redeemed, and nothing from the others |
| `Escrow.TotalWithin` | packages/wormhole_sdk/algorand/token_bridge.py:524-561 | payloads that are among others, counted as often, are worth no more |
| `Escrow.NeverShort` | packages/wormhole_sdk/algorand/token_bridge.py:563-654 | a covered escrow can pay as long as no more units are redeemed than were sent |
| `Escrow.Ledger.constructor` | packages/wormhole_sdk/algorand/token_bridge.py:982-987 | whatever the accounts hold at first, every escrow is covered |
| `Escrow.Ledger.Send` | packages/wormhole_sdk/algorand/token_bridge.py:686-826 | succeeds exactly when the deposit is in order; publishing keeps every escrow covered; a native payload is worth the deposit divided by the factor, for that asset only |
| `Escrow.Ledger.Redeem` | packages/wormhole_sdk/algorand/token_bridge.py:466-654 | succeeds exactly when the bridge releases and the accounts can pay, pays exactly the release, keeps every escrow covered, and is never short while no more units are redeemed than were sent |
| `Escrow.Ledger.Execute` | packages/wormhole_sdk/algorand/token_bridge.py:972-980 | every transaction of a group keeps every escrow covered, with the deposit just made on top; transfers move exactly their amount, only sendTransfer publishes, exactly after a deposit in order, and only completeTransfer redeems, paying exactly the release |
| `Escrow.Ledger.ExecuteGroup` | packages/wormhole_sdk/algorand/token_bridge.py:972-980 | a group is atomic for bridge and balances and keeps every escrow covered |
| `Escrow.Ledger.Run` | packages/wormhole_sdk/algorand/token_bridge.py:972-980 | over any run of groups every escrow stays covered |
| `Escrow.Ledger.EscrowCovers` | packages/wormhole_sdk/algorand/token_bridge.py:181-187 | in every reachable state the escrow of every native asset holds at least the published less the redeemed amounts, times ten to the decimals beyond eight |
| `Escrow.Ledger.PublishedCanBePaid` | packages/wormhole_sdk/algorand/token_bridge.py:563-654 | a redemption that the bridge accepts can be paid if its payload, together with those redeemed before, is among the published ones |
| `CrossContract.ApprovedIsSigned` | packages/wormhole_sdk/algorand/wormhole_core.py:365-513 | an approved verifyVAA call vouches for its VAA: a quorum of an accepted guardian set signed it, before the set's end |
| `CrossContract.StaysVouchsafed` | packages/wormhole_sdk/algorand/wormhole_core.py:239-275 | what was vouched for stays so, because accepted sets and ends stay |
| `CrossContract.BridgeStep` | packages/wormhole_sdk/algorand/token_bridge.py:972-980 | a completeTransfer, receiveAttest or governance call is accepted exactly when the bridge accepts it, and then acts on a VAA that is vouched for, a governance call on one of the current set; only such messages enter the bridge's log |
| `CrossContract.StepBoth` | packages/wormhole_sdk/algorand/wormhole_core.py:544-589 | one transaction through both contracts keeps what earlier verifyVAA calls of the group vouched for, whatever lies between |
| `CrossContract.GroupBoth` | packages/wormhole_sdk/algorand/token_bridge.py:972-980 | a group is atomic for both contracts |
| `CrossContract.RunBoth` | packages/wormhole_sdk/algorand/token_bridge.py:972-980 | over any run of groups through both contracts, every message in the bridge's log comes from a VAA that the guardians signed, at its moment and for good |
| `HashChain.PebbleHashChain.constructor` | packages/pyth_sdk/apps/fortuna/src/state.rs:24-34 | index i holds the secret hashed length minus i times; length 0 still makes one hash |
| `HashChain.HashBack` | packages/pyth_sdk/apps/fortuna/src/state.rs:24-34 | hashing the value at i + k exactly k times gives the value at i |
| `HashChain.PebbleHashChain.Reveal` | packages/pyth_sdk/apps/fortuna/src/state.rs:56-61 | hands out the values in order, each once: the secret hashed one time less than before; fails after the last |
| `HashChain.PebbleHashChain.RevealIth` | packages/pyth_sdk/apps/fortuna/src/state.rs:63-66 | the secret hashed length minus i times, failing exactly from the length on |
| `HashChain.PebbleHashChain.RevealTwice` | packages/pyth_sdk/apps/fortuna/src/state.rs:56-61 | hashing the second of two reveals in a row gives the first |
| `HashChain.PartitionPoint` | packages/pyth_sdk/apps/fortuna/src/state.rs:92-95 | the number of sorted offsets not above the sequence number |
| `HashChain.Reveal` | packages/pyth_sdk/apps/fortuna/src/state.rs:90-100 | uses the chain with the greatest offset not above the sequence, succeeds exactly when the sequence lies in it, and returns its secret hashed the right number of times |
| `HashChain.RevealsHashBack` | packages/pyth_sdk/apps/fortuna/src/state.rs:90-100 | of two reveals under the same chain the later one hashes back to the earlier one |
| `BlockWatcher.Watcher.constructor` | packages/pyth_sdk/apps/fortuna/src/keeper.rs:218-256 | the backlog is the last 1000 blocks up to where watching starts |
| `BlockWatcher.Watcher.WatchBlocks` | packages/pyth_sdk/apps/fortuna/src/keeper.rs:672-758 | across failed sends and missed heads, backlog and sent ranges cover every block up to the last safe one, and every sent range repeats the last 100 blocks |
| `BlockWatcher.Watcher.WatchBlocksWrapper` | packages/pyth_sdk/apps/fortuna/src/keeper.rs:645-666 | the same across any number of restarts |
| `BlockWatcher.CoversMore` | packages/pyth_sdk/apps/fortuna/src/keeper.rs:718-746 | a range that starts no later than the last safe block leaves no gap |
| `BlockWatcher.TilesAppend` | packages/pyth_sdk/apps/fortuna/src/keeper.rs:514-537 | a batch that starts where the last one ended extends the tiling |
| `BlockWatcher.InOneBatch` | packages/pyth_sdk/apps/fortuna/src/keeper.rs:514-537 | every block of a range is in exactly one batch |
| `BlockWatcher.Processor.HandleEvent` | packages/pyth_sdk/apps/fortuna/src/keeper.rs:314-497 | a fulfilled event is skipped; any other is retried exactly after node errors and missing receipts and stops at the first other answer, which leaves it Processed exactly if the contract refuses the reveal and Fulfilled otherwise; then it is in the cache, whatever the other task inserts |
| `BlockWatcher.ProcessEventMeans` | packages/pyth_sdk/apps/fortuna/src/keeper.rs:314-497 | which answers are retried, which leave the event Processed and which Fulfilled; four thirds of the gas estimate must be within the limit |
| `BlockWatcher.Processor.ProcessBatch` | packages/pyth_sdk/apps/fortuna/src/keeper.rs:545-640 | when a batch is done every fetched event is in the cache |
| `BlockWatcher.Processor.ProcessBlockRange` | packages/pyth_sdk/apps/fortuna/src/keeper.rs:502-538 | consecutive batches tile the range exactly, each but the last with exactly 101 blocks, and every event of every block is in the cache |
| `BlockWatcher.HundredBlocks` | packages/pyth_sdk/apps/fortuna/src/keeper.rs:514-537 | every batch has at most 100 blocks if and only if the range has at most 100 |
| `BlockWatcher.OneBatchOf101` | packages/pyth_sdk/apps/fortuna/src/keeper.rs:514-537 | blocks 0 to 100 make a single batch of 101 |
| `BlockWatcher.NothingMissed` | packages/pyth_sdk/apps/fortuna/src/keeper.rs:645-758 | once the backlog and all sent ranges are processed, no event from the backlog's start to the last safe block is missing from the cache |
| `RpcClient.ResilientRpcClient.constructor` | apps/keeper/src/rpc-client.ts:60-90 | all endpoints start healthy |
| `RpcClient.ResilientRpcClient.Recover` | apps/keeper/src/rpc-client.ts:176-183 | endpoints that have cooled down become healthy with no failures, others are untouched |
| `RpcClient.ResilientRpcClient.FirstHealthy` | apps/keeper/src/rpc-client.ts:185-191 | the healthy endpoint nearest to the current index, going round |
| `RpcClient.ResilientRpcClient.Heaviest` | apps/keeper/src/rpc-client.ts:193-194 | the first endpoint of the greatest weight |
| `RpcClient.ResilientRpcClient.GetBestEndpoint` | apps/keeper/src/rpc-client.ts:173-200 | always a healthy endpoint: the nearest, or the heaviest one reset if all are down; while another endpoint is healthy or past its cooldown, one that is down stays as it is and is not picked until more than 30000 ms after its last failure, and from then on is healthy |
| `RpcClient.ResilientRpcClient.RotateEndpoint` | apps/keeper/src/rpc-client.ts:202-204 | the next index on the ring |
| `RpcClient.ResilientRpcClient.RecordSuccess` | apps/keeper/src/rpc-client.ts:206-214 | resets the endpoint's failures, moves its average three tenths of the way to the new response time, and leaves the others |
| `RpcClient.ResilientRpcClient.RecordFailure` | apps/keeper/src/rpc-client.ts:216-227 | one failure more, dated now; healthy afterwards exactly if there were fewer than two before |
| `RpcClient.ResilientRpcClient.HealthCheck` | apps/keeper/src/rpc-client.ts:257-275 | without interference, an endpoint that is down for 30000 ms is healthy afterwards exactly if it answered; others are not touched |
| `RpcClient.ResilientRpcClient.ProbeEnded` | apps/keeper/src/rpc-client.ts:264-273 | a probe that returns, whatever happened to the endpoint since it was due: an answer makes it healthy, a failure only dates it back to the start of the probe |
| `RpcClient.ResilientRpcClient.Attempt` | apps/keeper/src/rpc-client.ts:103-145 | a failed attempt brings the rotation one step closer to the endpoint that answers |
| `RpcClient.ResilientRpcClient.Execute` | apps/keeper/src/rpc-client.ts:99-149 | with an initially healthy endpoint that always answers, only network failures elsewhere and retries for all endpoints, the call succeeds by the time the rotation reaches it, within n attempts |
| `RpcClient.ResilientRpcClient.Interleave` | apps/keeper/src/rpc-client.ts:99-149 | under any interleaving of calls and of probes that return late, an endpoint is healthy exactly when it has fewer than three failures in a row |
| `AutoClaim.LockBegins` | apps/keeper/src/keeper.ts:168-172 | a stream is locked exactly while one claim or one timer exists, and an unlocked stream is past its thirty seconds |
| `AutoClaim.LockFails` | apps/keeper/src/keeper.ts:194-195 | a failed claim trades its claim for one timer due in thirty seconds |
| `AutoClaim.LockSucceeds` | apps/keeper/src/keeper.ts:196-198 | a successful claim unlocks the stream |
| `AutoClaim.LockFires` | apps/keeper/src/keeper.ts:195 | the timer unlocks the stream, thirty seconds after the failure |
| `AutoClaim.LogStarted` | apps/keeper/src/keeper.ts:168-178 | a start no sooner than thirty seconds after the last failure keeps the log spaced |
| `AutoClaim.LogEnded` | apps/keeper/src/keeper.ts:178-198 | an end keeps starts equal to ends plus running claims |
| `AutoClaim.ClaimLock.BeginClaim` | apps/keeper/src/keeper.ts:168-178 | starts a claim exactly when the stream has no claim in flight and no pending timer |
| `AutoClaim.ClaimLock.FinishClaim` | apps/keeper/src/keeper.ts:178-198 | ends one claim: unlocked on success, one timer on failure |
| `AutoClaim.ClaimLock.FireTimer` | apps/keeper/src/keeper.ts:194-195 | removes one timer and the lock |
| `AutoClaim.ClaimLock.Run` | apps/keeper/src/keeper.ts:166-199 | under any overlap of ticks at most one claim per stream is in flight, never with a timer pending, and a failed claim is retried no sooner than thirty seconds later |
| `Twap.Hedger.constructor` | apps/keeper/src/keeper.ts:122-163 | fresh healthy streams with at least one tranche satisfy the invariant |
| `Twap.Hedger.DetectBreaches` | apps/keeper/src/price-monitor.ts:61-93 | a healthy stream is listed exactly if its strike is not zero and the price is below it for FLOOR, above it for CEILING; an active one exactly if moreover its interval is over and tranches are left; no other stream is; in order, each at its rank |
| `Twap.RecordKeeps` | apps/keeper/src/keeper.ts:135-163 | a recorded success keeps the count equal to the history, the bound, the spacing, the status rules and the side of the strike |
| `Twap.SingleTrancheStaysActive` | apps/keeper/src/keeper.ts:140-147 | a stream of one tranche stays TWAP_ACTIVE and is never hedged again |
| `Twap.Hedger.Tick` | apps/keeper/src/keeper.ts:114-163 | a stream is recorded exactly if it was in breach, its transaction was made and it succeeded; then it moves by that one tranche, with its times and price, and otherwise it stays |
| `Twap.RecordedExactly` | apps/keeper/src/keeper.ts:114-163 | what is recorded is a successful transaction of the tick at the tick's price; if all succeed, exactly the streams in breach are recorded, by status, strike, direction, price, interval and limit |
| `Twap.BreachesExactly` | apps/keeper/src/price-monitor.ts:61-106 | who is in a list of breaches, by status, strike, direction, price, interval and limit |
| `Twap.Hedger.Run` | apps/keeper/src/keeper.ts:114-163 | over any run of ticks that do not overlap, streams and histories are exactly what the successes make them; strike, direction, limit and interval stay the stream's own; FULLY_HEDGED is absorbing |
| `Twap.RunBound` | apps/keeper/src/keeper.ts:114-163 | a fresh stream with at least one tranche, after any ticks: tranches equal the recorded successes, never exceed its own limit, each starts at least its own interval after the previous one was recorded, each of a FLOOR stream was called for by a price below its strike and of a CEILING stream by one above it, no other stream has any, and FULLY_HEDGED is reached only at the limit |
| `Twap.TickKeeps` | apps/keeper/src/keeper.ts:122-163 | a tick keeps the invariant of a stream, its strike, direction, limit and interval, and leaves fully hedged streams alone |
| `Twap.NoTrancheExceeds` | apps/keeper/src/keeper.ts:140-147 | the first recorded hedge of a fresh stream respects the limit if and only if there is at least one tranche |

## Left out

- Upgrading a program: both contracts store the approved hash, and an UpdateApplication call is treated as refused.
- TokenBridge: attestToken, do_optin and the inner publishMessage call of sendTransfer, none of which writes a blob or a global.
- Escrow: minimum balances, close-outs of other accounts (which can only add to an escrow), inner transactions of other applications, and the supply of wrapped assets, which their own accounts hold.
- Escrow.Ledger.Run: senders are not escrow accounts, because those are rekeyed to the application; that a VAA was really signed is `CrossContract.RunBoth`.
- LocalBlob.AppStorage.Write: ends below 32512 only; beyond that a write could wrap around to the first pages, and whether it may add a page key on the way depends on the ledger's schema limits.
- LocalBlob.WritePages: ends below 32512 only, for the same reason.
- WormholeCore.Core.Init: boots with the same account in slots 2 and 3 and with the real program hash only; `init` checks neither, and a boot with another account in slot 2 would write a date into that account, whatever it holds.
- WormholeCore.Core.HdlGovernance: at boot, the same account in slots 2 and 3 only, for the same reason.
- WormholeCore.Core.NewGuardianSet: at boot, the same account in slots 2 and 3 only, for the same reason.
- EndToEnd.SubmitUpdate: VAAs with signers of 32 and more are not sent through the group; that the contract refuses them is `Client.AgreeExactly`.
- CrossContract.RunBoth: attestToken, sendTransfer and the bridge's optin call write no state and succeed or fail as the ledger says.
- Client.ClientAgrees: the client's copy of the keys is given; decodeLocalState, which fetches it and skips all-zero pages, is not modelled.
- Replay.Locate: sequences from 2^53 on, where the floating-point quotient is no longer exact, are not covered.
- WormholeCore.Core.ClientSees: sequences below 2^53 only, as `Replay.CheckBitsSet`.
- Replay.CheckBitsSet: sequences from 2^53 on, where the floating-point quotient is no longer exact, are not covered.
- VerifyVaa.Run: the four bytes of hits are thirty-two booleans; their bit order in memory is not modelled.
- Fees, opcode budgets and the limit on group size.
- VAA payloads other than core and bridge governance, attestations and transfers; JSON and string forms; AddSignature.
- BlockWatcher.Processor.ProcessBlockRange: a successful fetch returns all events of its range, and block numbers do not overflow 64 bits.
- BlockWatcher.Processor.HandleEvent: the effect on the cache only; that Fulfilled is never overwritten by the other task is not claimed, because check and update are not atomic.
- RpcClient.ResilientRpcClient.RecordSuccess: the rolling average is over reals, without the rounding of doubles.
- RpcClient.ResilientRpcClient.Execute: the jittered delays between attempts are part of the clock.
- Twap.Hedger.Run: ticks that overlap and refreshes of the stream records during a run.
- Frontend, indexer, transaction building, Hermes and Fortuna HTTP routes, deploy scripts, wormchain wiring, dashboards and metrics.
