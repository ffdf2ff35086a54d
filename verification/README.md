# Verification of the hardware wallet

A Dafny model of the parts of the hardware-wallet firmware that decide what is
shown, what is signed and what is kept: the Ethereum, Bitcoin and Solana adapters,
the wallet-core reducer, the staged key lifecycle, the two-slot record store and the
two-button demo that drives the reducer. `dafny verify dfyconfig.toml` checks all of it.

How the model is laid out:

* `Bytes`, `ChainApi`, `CryptoVocabulary`, `KeyPaths`: machine bytes, the bounded buffer
  every codec writes into and the bounded derivation path (classes over arrays), and the
  request/reply vocabulary of the crypto runtime.
* `Rlp`, `Eip1559`, `Eip1559Signing`: what the Ethereum codec means, as functions, and
  its canonicality, locality and round trips. `EthereumAdapter` holds the procedures
  (loops, buffers) proved against them, `EthereumExecution` the execution machine.
* `BitcoinWire`, `BitcoinDer`, `BitcoinTransaction`, `BitcoinPsbt`: CompactSize (with
  the cursor class), compact and DER signatures, the transaction forms, the PSBT maps.
  `BitcoinAdapter` holds the procedures, `BitcoinExecution` the eight-stage machine.
* `SolanaWire`, `SolanaTransfer`, `SolanaExecution`: the same for Solana.
* `WalletState`, `WalletReducer`: the reducer, event by event. `WalletInvariant` and
  `WalletProtocol`: what every state satisfies and what one step may do. `WalletRuns`:
  runs over any events in any order, with reboots from the persistent snapshot between
  them. The `...History` modules: what must have happened before an operation is
  executed or completed, a session opened, a setting changed, a host trusted, a wallet
  provisioned or wiped. `WalletAnswers`: the other direction, that every setup, unlock and
  flow comes to its end when its answers come, and why an event is refused.
* `KeyLifecycle`, `AtomicStore`, `WalletDemo`: classes for the staged root, the
  crash-atomic store and the 28-screen demo.

Formats are given twice: by the functions that read and write them, and by statements with
the literal bytes at their places (`...Places`, `...Items`, `Known...`), so that neither a
constant nor an order of fields rests on a definition alone.

Pure code is modelled by functions; code that works step by step by methods and classes
that are proved equal to a specification function, about which the lemmas speak. Slices
are sequences of bytes, `usize` has 64 bits, hashes and signers are arbitrary suppliers
of results. The store of `KeyLifecycle` keeps the contract its trait documents: what it
reports done is done, and a failed call leaves the stored root alone.

Where the code does less than its documentation says, the model follows the code and
states the exact condition:

* `signature_from_signed_eip1559` calls itself a strict parser, but neither looks at the
  kind of the three signature fields nor bounds what was signed. When what it accepts was
  written by the finaliser: `Eip1559Signing.AcceptedIsFinalisedIff`. Inputs for which it was
  not: `Eip1559Signing.ListParityIsAccepted`, `Eip1559Signing.OversizedIsAccepted` and
  `Eip1559Signing.OversizedWithinBound`.
* `extract_p2wpkh_witness` says it demands the exact supported shape, but skips any
  output script: `BitcoinTransaction.ExtractedIsSupportedIff`, and the empty script in
  `BitcoinTransaction.EmptyScriptIsExtracted`.
* A rejected Bitcoin call leaves the stage alone but may store a foreign public key:
  `BitcoinExecution.RejectedUnchangedIff` and `BitcoinExecution.MismatchOverwrites`.
* A setting that went to the storage takes effect in memory exactly when nothing ends the
  wait for the answer: `WalletSettingsHistory.StoredChangeAppliesIff`. Two runs that differ
  by one lock: `WalletSettingsHistory.LockChangesTheOutcome`.
* In the demo a press can change what is shown without a new sequence number: the clause
  on `sequence` of `WalletDemo.WalletDemo.Pressed`, which `Press` ensures, and
  `WalletDemo.UnannouncedPress`.

## Model

| member | source | states |
|---|---|---|
| `ChainApi.BoundedBytes.Push` | crates/chain-api/src/lib.rs:75-82 | appends one byte, or reports a full buffer and changes nothing; bytes past the length stay zero |
| `ChainApi.BoundedBytes.ExtendFromSlice` | crates/chain-api/src/lib.rs:89-99 | appends the whole slice or nothing |
| `ChainApi.FromSlice` | crates/chain-api/src/lib.rs:45-53 | a fresh buffer holding exactly the slice, refused exactly when the slice is too long |
| `ChainApi.DerivedEqIsContentEq` | crates/chain-api/src/lib.rs:25-29 | the derived equality, over storage and length, is equality of contents |
| `KeyPaths.NewChild` | crates/wallet-core/src/key.rs:50-56 | a child number is refused exactly from 2^31 on, and keeps index and hardenedness |
| `KeyPaths.DerivationPath.Push` | crates/wallet-core/src/key.rs:95-103 | appends one component, or reports a path of sixteen and changes nothing |
| `KeyPaths.PathsEqualIffComponents` | crates/wallet-core/src/key.rs:74-78 | the derived equality, over storage and depth, is equality of components |
| `Rlp.ParsedIsCanonical` | crates/chain-ethereum/src/lib.rs:521-606 | an item the parser returns is the minimal encoding of its payload and kind, and lies at the front of the input |
| `Rlp.CanonicalParses` | crates/chain-ethereum/src/lib.rs:521-670 | what the emitters write is accepted with its payload and length, whatever bytes follow |
| `Rlp.ParseIffCanonical` | crates/chain-ethereum/src/lib.rs:521-670 | parser and emitters are mutual inverses: success with (item, n) exactly when the first n bytes are the item's minimal encoding |
| `Rlp.ParseLocal` | crates/chain-ethereum/src/lib.rs:521-606 | the parse does not depend on any byte behind the item |
| `Rlp.KnownHeaders` | crates/chain-ethereum/src/lib.rs:608-670 | the headers of strings and lists of no, one and 55 bytes, as literal bytes |
| `Rlp.KnownLongHeaders` | crates/chain-ethereum/src/lib.rs:648-670 | the headers of strings and lists of 56 and 1024 bytes, as literal bytes |
| `Eip1559.ScalarIffMinimal` | crates/chain-ethereum/src/lib.rs:44-62 | a payload is accepted as an integer exactly when it is the minimal big-endian form of a 256-bit number |
| `Eip1559.WordIffBelow` | crates/chain-ethereum/src/lib.rs:33-62 | the numbers of at most 32 big-endian digits are exactly those below 2^256 |
| `Eip1559.TypedListIff` | crates/chain-ethereum/src/lib.rs:489-519 | an envelope tiles into n fields exactly when it is the canonical envelope of n canonical items |
| `Eip1559.AcceptedIffCanonical` | crates/chain-ethereum/src/lib.rs:386-419 | a request is accepted with a review exactly when its bytes are the canonical envelope of the transfer the review shows |
| `Eip1559.ShownDeterminesBytes` | crates/chain-ethereum/src/lib.rs:386-419 | two accepted requests show the same transfer exactly when they are the same bytes |
| `Eip1559.UnsupportedIsNamed` | crates/chain-ethereum/src/lib.rs:386-419 | contract creation, calldata and an access list are each refused by their own error, in this order |
| `Eip1559.EnvelopeIsAccepted` | crates/chain-ethereum/src/lib.rs:386-419 | every transfer has an accepted envelope, of bounded length, and its review shows the transfer back |
| `Eip1559.KnownEnvelope` | crates/chain-ethereum/src/lib.rs:686-697 | the canonical envelope of the transfer the adapter's own tests use, byte by byte, to every destination |
| `Eip1559Signing.FinalizePreservesFields` | crates/chain-ethereum/src/lib.rs:448-467 | finalising any nine-field envelope of at most 512 bytes stays within 640 and yields twelve fields: the nine unchanged, then parity, r and s in their shortest form |
| `Eip1559Signing.FinalizeRoundTrip` | crates/chain-ethereum/src/lib.rs:362-384 | from a finalised envelope the extractor returns the signature exactly when r and s are non-zero |
| `Eip1559Signing.ReadSignatureIff` | crates/chain-ethereum/src/lib.rs:362-384 | three payloads are read as a signature exactly when they are its minimal parity, r and s, all halves non-zero |
| `Eip1559Signing.AcceptedIsFinalisedIff` | crates/chain-ethereum/src/lib.rs:355-384 | an accepted signed envelope, of any length, was finalised from some unsigned one of at most 512 bytes exactly when none of the three signature fields is a list and the first nine fields make an envelope of at most 512 bytes |
| `Eip1559Signing.ListParityIsAccepted` | crates/chain-ethereum/src/lib.rs:355-384 | for every nine fields and signature there is an accepted envelope that no finaliser writes |
| `Eip1559Signing.OversizedIsAccepted` | crates/chain-ethereum/src/lib.rs:355-384 | behind any nine fields that exceed the finaliser's input the signature is accepted, although no finaliser writes those bytes |
| `Eip1559Signing.OversizedWithinBound` | crates/chain-ethereum/src/lib.rs:448-467 | such an envelope exists within 640 bytes |
| `EthereumAdapter.ParseLongItem` | crates/chain-ethereum/src/lib.rs:574-606 | the length-accumulating loop, with its overflow checks, computes the long form of the specification |
| `EthereumAdapter.ParseRlpItem` | crates/chain-ethereum/src/lib.rs:521-572 | the parser by prefix ranges computes the specified parse, errors included |
| `EthereumAdapter.ParseTypedList` | crates/chain-ethereum/src/lib.rs:489-519 | envelope type, outer list and tiling as specified |
| `EthereumAdapter.TileFields` | crates/chain-ethereum/src/lib.rs:500-518 | the field loop tiles the payload into exactly the wanted number of items |
| `EthereumAdapter.RlpPushLength` | crates/chain-ethereum/src/lib.rs:648-670 | appends the minimal header, or reports a full buffer having appended a part of it at most |
| `EthereumAdapter.RlpPushBytes` | crates/chain-ethereum/src/lib.rs:631-639 | appends the encoding of a byte string under the same rule |
| `EthereumAdapter.RlpPushU64` | crates/chain-ethereum/src/lib.rs:608-618 | appends the minimal encoding of a 64-bit number |
| `EthereumAdapter.RlpPushIntegerBytes` | crates/chain-ethereum/src/lib.rs:620-629 | appends the encoding of a number given with leading zeros |
| `EthereumAdapter.EncodeNativeTransfer` | crates/chain-ethereum/src/lib.rs:326-353 | for all 64-bit inputs the encoder fits its buffer and writes the canonical envelope of the transfer |
| `EthereumAdapter.FinalizeEip1559` | crates/chain-ethereum/src/lib.rs:448-467 | re-parsing, copying and appending the signature yields the specified signed envelope; its buffers always suffice |
| `EthereumExecution.CryptoSignature` | crates/chain-ethereum/src/lib.rs:421-446 | a reply is accepted exactly when it carries a valid recoverable secp256k1 signature, which is returned; one that fails in its recovery id alone is an invalid signature, any other an unexpected reply |
| `EthereumExecution.Execution.Next` | crates/chain-ethereum/src/lib.rs:176-231 | the in-place machine takes the specified step |
| `EthereumExecution.RunShape` | crates/chain-ethereum/src/lib.rs:172-241 | whatever is fed in, a run asks for its one operation first and completes at most once, on an accepted reply |
| `EthereumExecution.RunCompletesIff` | crates/chain-ethereum/src/lib.rs:172-241 | a run asks for its operation exactly when it is called without a reply, and completes exactly when an awaited reply comes behind such a call |
| `EthereumExecution.ReviewedIsSigned` | crates/chain-ethereum/src/lib.rs:172-319 | in every run the signature is over the canonical envelope of the reviewed transfer and the result carries its nine fields and that signature |
| `EthereumExecution.PublicKeyRun` | crates/chain-ethereum/src/lib.rs:187-212 | a public-key execution asks for that derivation, completes exactly on a key of its format, with its bytes, never signs and serves no payload |
| `BitcoinWire.CompactSizeIff` | crates/chain-bitcoin/src/lib.rs:949-974 | a length is read exactly when its shortest encoding stands at the front |
| `BitcoinWire.KnownCompactSizes` | crates/chain-bitcoin/src/lib.rs:894-913 | the encodings on both sides of each step, as literal bytes |
| `BitcoinWire.Cursor.ReadU8` | crates/chain-bitcoin/src/lib.rs:925-929 | reads one byte and advances, or fails |
| `BitcoinWire.Cursor.ReadSlice` | crates/chain-bitcoin/src/lib.rs:931-947 | reads a run of bytes and advances past it, or fails |
| `BitcoinWire.Cursor.ReadCompactSize` | crates/chain-bitcoin/src/lib.rs:949-974 | the branches by first byte compute the specified read, errors included |
| `BitcoinWire.PushCompactSize` | crates/chain-bitcoin/src/lib.rs:894-913 | appends the shortest encoding up to 32 bits, refuses longer lengths, reports a full buffer |
| `BitcoinDer.GreaterIsNumeric` | crates/chain-bitcoin/src/lib.rs:777 | the slice comparison with the half order is the numeric one |
| `BitcoinDer.HalfOrderIsHalf` | crates/chain-bitcoin/src/lib.rs:23-26 | twice the half-order constant plus one is the order of the secp256k1 group, as a literal number |
| `BitcoinDer.ValidIffLowS` | crates/chain-bitcoin/src/lib.rs:771-781 | a compact signature is valid exactly when r and s are non-zero and s is at most half the group order |
| `BitcoinDer.DerIntegerIff` | crates/chain-bitcoin/src/lib.rs:800-814 | encoding and strict decoding of a DER integer are mutual inverses on non-zero halves |
| `BitcoinDer.DerBijection` | crates/chain-bitcoin/src/lib.rs:783-867 | a DER string decodes to a compact signature exactly when that signature encodes to it |
| `BitcoinDer.KnownSignatures` | crates/chain-bitcoin/src/lib.rs:1072-1080 | the DER forms of two compact signatures, as literal bytes |
| `BitcoinTransaction.ParseUnsignedIff` | crates/chain-bitcoin/src/lib.rs:661-699 | a byte string parses to a transaction exactly when it is the serialisation of that transaction |
| `BitcoinTransaction.UnsignedPlaces` | crates/chain-bitcoin/src/lib.rs:661-699 | the 82 bytes of the unsigned form, with its counts, empty script and program prefix as literals |
| `BitcoinTransaction.ParseWitnessUtxoIff` | crates/chain-bitcoin/src/lib.rs:701-717 | a spent output is an 8-byte amount and a version-0 20-byte program, nothing else |
| `BitcoinTransaction.PreimageIff` | crates/chain-bitcoin/src/lib.rs:719-743 | the preimage is the one string of 182 bytes with every item of BIP 143 at its place: the counted script code, its opcodes and the sighash type as literals, the amount as a number |
| `BitcoinTransaction.ExtractIff` | crates/chain-bitcoin/src/lib.rs:507-549 | a witness is extracted exactly from signed serialisations carrying a strict DER signature and a 33-byte key |
| `BitcoinTransaction.SerializeRoundTrip` | crates/chain-bitcoin/src/lib.rs:745-769 | for every transaction, key and valid signature the serialisation fits 640 bytes and extraction gives both back |
| `BitcoinTransaction.SignedItems` | crates/chain-bitcoin/src/lib.rs:745-769 | the signed form item by item, with marker, flag, counts and program prefix as literals (BIP 144) |
| `BitcoinTransaction.ExtractedIsSupportedIff` | crates/chain-bitcoin/src/lib.rs:500-549 | what is extracted came from a supported transaction exactly when the skipped script is a 20-byte witness program |
| `BitcoinTransaction.EmptyScriptIsExtracted` | crates/chain-bitcoin/src/lib.rs:500-549 | an extracted transaction, paying to the empty script, that no supported one serialises to |
| `BitcoinPsbt.TakeFieldIff` | crates/chain-bitcoin/src/lib.rs:559-565 | a field is read exactly when its counted key and value stand at the front, the end of a map exactly at a zero |
| `BitcoinPsbt.FoldMapOfBytes` | crates/chain-bitcoin/src/lib.rs:558-579 | on a serialised map the loop computes the fold of its fields, errors included |
| `BitcoinPsbt.FoldMapIsBytes` | crates/chain-bitcoin/src/lib.rs:558-579 | whatever the loop accepts is a serialised map |
| `BitcoinPsbt.FoldGlobals` | crates/chain-bitcoin/src/lib.rs:566-578 | the global map is accepted exactly with one unsigned transaction of at most 512 bytes among version-zero fields |
| `BitcoinPsbt.FoldInputs` | crates/chain-bitcoin/src/lib.rs:583-632 | the input map is accepted exactly when every field is permitted and only the sighash type repeats; the last sighash counts |
| `BitcoinPsbt.InputsAllowedIff` | crates/chain-bitcoin/src/lib.rs:583-632 | an input map is allowed exactly when every field is one of four, given by their key bytes, and only the sighash type occurs twice |
| `BitcoinPsbt.ParsePsbtIff` | crates/chain-bitcoin/src/lib.rs:551-659 | parsing succeeds with a review exactly when the bytes are the three maps with one unsigned transaction, one witness UTXO, a last sighash of ALL, nothing behind, and fee + output = input |
| `BitcoinPsbt.UnpayableIsNamed` | crates/chain-bitcoin/src/lib.rs:634-659 | another sighash type, a missing spent output and spending more than it are each refused by their own error, in this order |
| `BitcoinPsbt.PlainPsbtIsAccepted` | crates/chain-bitcoin/src/lib.rs:551-659 | every transaction that does not overspend its input has an accepted PSBT, whose review shows it |
| `BitcoinPsbt.PlainPsbtBytes` | crates/chain-bitcoin/src/lib.rs:1007-1031 | the bytes of that PSBT, with magic, key types and counts as literals |
| `BitcoinAdapter.DerIntegerBytes` | crates/chain-bitcoin/src/lib.rs:800-814 | the scan for the first significant byte yields the DER integer |
| `BitcoinAdapter.EncodeDerSignature` | crates/chain-bitcoin/src/lib.rs:783-798 | writes the DER form into its 73-byte buffer, which always suffices |
| `BitcoinAdapter.DecodeDerSignature` | crates/chain-bitcoin/src/lib.rs:816-840 | the cursor walk computes the strict decoding, errors included |
| `BitcoinAdapter.ParseUnsignedTransaction` | crates/chain-bitcoin/src/lib.rs:661-699 | the cursor walk computes the specified parse, errors included |
| `BitcoinAdapter.ParseWitnessOutput` | crates/chain-bitcoin/src/lib.rs:701-717 | likewise for the spent output |
| `BitcoinAdapter.SerializedOutput` | crates/chain-bitcoin/src/lib.rs:63-70 | amount and script with its length, within 64 bytes |
| `BitcoinAdapter.BuildBip143Preimage` | crates/chain-bitcoin/src/lib.rs:719-743 | writes the ten items of BIP 143 in order; 256 bytes always suffice |
| `BitcoinAdapter.SerializeSignedTransaction` | crates/chain-bitcoin/src/lib.rs:745-769 | writes the signed transaction exactly when the signature is valid; 640 bytes always suffice |
| `BitcoinAdapter.ExtractP2wpkhWitness` | crates/chain-bitcoin/src/lib.rs:507-549 | the cursor walk computes the specified extraction, errors included |
| `BitcoinAdapter.ReadGlobals` | crates/chain-bitcoin/src/lib.rs:557-579 | the global loop terminates on every input and computes the fold of the map |
| `BitcoinAdapter.ReadInputs` | crates/chain-bitcoin/src/lib.rs:583-632 | the input loop terminates on every input and computes the fold of the map |
| `BitcoinAdapter.ParsePsbt` | crates/chain-bitcoin/src/lib.rs:551-659 | the whole parser computes the specified review or error |
| `BitcoinAdapter.FirstNonZero` | crates/chain-bitcoin/src/lib.rs:801-805 | the position of the first byte that is not zero, behind which the significant bytes begin; the end exactly for an all-zero integer |
| `BitcoinExecution.Execution.Next` | crates/chain-bitcoin/src/lib.rs:185-222 | the in-place machine takes the specified step, field by field |
| `BitcoinExecution.Execution.AcceptPublicKey` | crates/chain-bitcoin/src/lib.rs:248-289 | stores a compressed 33-byte key before comparing it with the PSBT's |
| `BitcoinExecution.Execution.AcceptOutputsHash` | crates/chain-bitcoin/src/lib.rs:336-376 | stores the digest, builds the preimage and asks for the signature |
| `BitcoinExecution.Execution.AcceptSignature` | crates/chain-bitcoin/src/lib.rs:378-411 | completes exactly on a 64-byte low-S signature without recovery id |
| `BitcoinExecution.AcceptedRaisesStage` | crates/chain-bitcoin/src/lib.rs:181-412 | an accepted call raises the stage by one, except that a public-key execution finishes directly |
| `BitcoinExecution.AcceptedIff` | crates/chain-bitcoin/src/lib.rs:181-412 | a call is accepted exactly when it brings the reply its stage waits for |
| `BitcoinExecution.RejectedUnchangedIff` | crates/chain-bitcoin/src/lib.rs:267-281 | a rejected call keeps the stage, and everything else exactly unless a foreign key differing from the stored one was reported |
| `BitcoinExecution.MismatchOverwrites` | crates/chain-bitcoin/src/lib.rs:278-281 | an execution and a reply for which a rejected call changes the stored key |
| `BitcoinExecution.RunFollowsProtocol` | crates/chain-bitcoin/src/lib.rs:181-412 | whatever is fed in, the accepted calls are a prefix of the seven-step protocol with its payloads |
| `BitcoinExecution.SignOnlySixth` | crates/chain-bitcoin/src/lib.rs:336-376 | a signature is asked for only as the sixth accepted call, behind key, program and component hashes |
| `BitcoinExecution.ReviewedPsbtIsSigned` | crates/chain-bitcoin/src/lib.rs:181-498 | with honest digests the signature is over the BIP 143 preimage of the reviewed transaction, byte by byte, under a key hashing to its program, and the result gives back key and signature |
| `BitcoinExecution.HonestRunCompletes` | crates/chain-bitcoin/src/lib.rs:181-498 | over every accepted PSBT an honest runtime with the spent key brings the execution to its end, with the reviewed transaction signed |
| `BitcoinExecution.PublicKeyRun` | crates/chain-bitcoin/src/lib.rs:252-266 | a public-key execution derives once, answers with that key and never signs |
| `BitcoinExecution.PublicKeyAcceptedIff` | crates/chain-bitcoin/src/lib.rs:252-266 | a public-key execution accepts its start and then exactly a key of its format |
| `SolanaWire.ShortVecIff` | crates/chain-solana/src/lib.rs:416-435 | a length is read exactly when the compact form of a number up to 65535 stands at the front |
| `SolanaWire.KnownShortVecs` | crates/chain-solana/src/lib.rs:373-386 | the encodings on both sides of each step, as literal bytes |
| `SolanaWire.Cursor.ReadShortVec` | crates/chain-solana/src/lib.rs:416-435 | the three-round loop computes the specified read, overflow and canonicality errors included |
| `SolanaWire.Cursor.ReadArray` | crates/chain-solana/src/lib.rs:404-414 | reads a run of bytes and advances past it, or fails |
| `SolanaWire.PushShortVec` | crates/chain-solana/src/lib.rs:373-386 | the loop appends the compact form, refuses numbers above 16 bits, reports a full buffer |
| `SolanaTransfer.ParseTransferIff` | crates/chain-solana/src/lib.rs:319-371 | a message is accepted with a review exactly when it is the one message of the transfer shown |
| `SolanaTransfer.MessagePlaces` | crates/chain-solana/src/lib.rs:296-317 | the 150 bytes of the message, with header, system program, instruction and transfer code as literals and the amount as a number |
| `SolanaTransfer.ShownDeterminesMessage` | crates/chain-solana/src/lib.rs:319-371 | equal reviews come from equal messages |
| `SolanaTransfer.EncodeSystemTransfer` | crates/chain-solana/src/lib.rs:296-317 | writes that message; the buffer always suffices |
| `SolanaTransfer.ParseSystemTransfer` | crates/chain-solana/src/lib.rs:319-371 | the cursor walk computes the specified parse, errors included |
| `SolanaTransfer.MessageIsAccepted` | crates/chain-solana/src/lib.rs:296-371 | every transfer has an accepted message of 150 bytes, and the review shows it back |
| `SolanaExecution.Execution.Next` | crates/chain-solana/src/lib.rs:119-203 | the in-place machine takes the specified step |
| `SolanaExecution.AcceptedIff` | crates/chain-solana/src/lib.rs:119-203 | a call is accepted exactly when it brings the reply its stage waits for |
| `SolanaExecution.RunFollowsProtocol` | crates/chain-solana/src/lib.rs:119-203 | whatever is fed in, the accepted calls are: derive, sign once the derived key is the signer, complete with 1, signature and message |
| `SolanaExecution.ReviewedIsSigned` | crates/chain-solana/src/lib.rs:119-286 | in every run of an accepted request the signature is over the message of the reviewed transfer |
| `SolanaExecution.HonestRunCompletes` | crates/chain-solana/src/lib.rs:119-286 | over every accepted request a runtime that derives the signer and signs brings the execution to its end, with the signed message |
| `SolanaExecution.PublicKeyRun` | crates/chain-solana/src/lib.rs:144-158 | a public-key execution derives once, answers with that key and never signs |
| `WalletInvariant.InitialStates` | crates/wallet-core/src/state.rs:249-280 | fresh and restored states satisfy the invariant |
| `WalletInvariant.RejectUnchangedIff` | crates/wallet-core/src/reducer/settings.rs:86-117 | on any state a `Reject` changes something exactly when it answers the end of a flow whose wallet is gone |
| `WalletInvariant.RejectLeavesState` | crates/wallet-core/src/reducer/common.rs:54-56 | in a reachable state a `Reject` leaves everything as it was |
| `WalletInvariant.ConfirmationsTakeEffect` | crates/wallet-core/src/reducer/operation.rs:110-171 | in a reachable state the defensive re-checks never stop a display or confirmation of what is under review; the state that follows; a prepared review is refused for two reasons only |
| `WalletInvariant.AwaitedAnswersTakeEffect` | crates/wallet-core/src/reducer/settings.rs:86-115 | nor the answers a reachable state waits for: the stored change is made, a valid check marks the backup verified, a verified PIN leads on to passphrase or session |
| `WalletInvariant.RestoredSnapshot` | crates/wallet-core/src/state.rs:265-312 | a snapshot restores metadata and policy, locked, without session, flow or capability, and is its own snapshot |
| `WalletInvariant.PinRejectionOutcome` | crates/wallet-core/src/reducer/auth.rs:88-127 | a counted rejection wipes exactly when the policy wipes and the attempts are used up; otherwise it locks and reports what is left of the limit |
| `WalletInvariant.RequestStartsFlowIff` | crates/wallet-core/src/reducer/maintenance.rs:71-90 | a host's request starts the flow it names, with its request to the runtime, exactly when the wallet is unlocked for that host and idle; the refusals come in one order and change nothing |
| `WalletInvariant.UnaddressedIsRejected` | crates/wallet-core/src/reducer/mod.rs:11-85 | an answer that no running setup, unlock or flow of its id waits for is rejected and changes nothing, in any state |
| `WalletInvariant.SettingsCommuteIff` | crates/wallet-core/src/policy.rs:63-79 | of two settings on one subject the later wins, and their order matters exactly when they contradict each other |
| `WalletInvariant.PolicyReachableIff` | crates/wallet-core/src/policy.rs:63-79 | settings reach exactly the policies with the same attempt limit |
| `WalletInvariant.LockingSeals` | crates/wallet-core/src/reducer/auth.rs:206-250 | a lock ends session, attempt and flow, keeps metadata, policy and count, and is idempotent; expiry, a lost host under a locking policy and a runtime failure are exactly a lock |
| `WalletProtocol.StepKeeps` | crates/wallet-core/src/reducer/mod.rs:11-85 | every event in every reachable state keeps the invariant and moves each part of the state only along the listed transitions |
| `WalletProtocol.RejectedOperationEnds` | crates/wallet-core/src/reducer/operation.rs:9-192 | a rejected operation is at most ended, for one of four reasons |
| `WalletProtocol.WipingIsFrozen` | crates/wallet-core/src/reducer/maintenance.rs:120-129 | while wiping nothing but the end of the wipe changes the state, and that leaves a fresh one |
| `WalletRuns.InitialIff` | crates/wallet-core/src/state.rs:249-280 | the initial states of runs are exactly those `new` and `restore` produce |
| `WalletRuns.ReachableInv` | crates/wallet-core/src/reducer/mod.rs:11-85 | every state of every run, reboots included, satisfies the invariant |
| `WalletRuns.StepFollows` | crates/wallet-core/src/reducer/mod.rs:11-85 | so does every step follow the transitions |
| `WalletOperationHistory.OperationHistory` | crates/wallet-core/src/reducer/operation.rs:9-135 | a pending operation was requested by the session's host, planned under the policy and displayed, as far as its stage says, in one unbroken session |
| `WalletOperationHistory.ExecutionIsAuthorized` | crates/wallet-core/src/reducer/operation.rs:9-171 | every execution follows its latest request in one unbroken session under a policy admitting the plan; a plan that signs, by flag or kind, was rendered, displayed and then confirmed |
| `WalletOperationHistory.ExecutedAtMostOnce` | crates/wallet-core/src/reducer/operation.rs:9-171 | between two executions lies a new request |
| `WalletOperationHistory.ConfirmIffNeeded` | crates/wallet-core/src/reducer/operation.rs:234-255 | a plan is shown for confirmation exactly when it signs, exports a key or asks for it, and executed silently exactly when it asks to be, signs nothing and is custom |
| `WalletSessionHistory.SessionIsConstant` | crates/wallet-core/src/reducer/settings.rs:86-127 | within a session id, host and wallet never change, and it is trusted exactly while it was and its host is not revoked |
| `WalletSessionHistory.AttemptHistory` | crates/wallet-core/src/reducer/auth.rs:8-179 | a running unlock attempt has walked the stages before it under one id, for one host |
| `WalletSessionHistory.SessionIsAuthenticated` | crates/wallet-core/src/reducer/auth.rs:8-204 | every session is opened by a complete chain of one attempt: request, trust, PIN, passphrase unless disabled, skipped only where optional |
| `WalletSessionHistory.ContextNeedsUnlock` | crates/wallet-core/src/key.rs:180-187 | no capability and no execution without such a chain since the last reboot, and the capability is for the wallet it opened |
| `WalletSettingsHistory.ChangeIsConfirmed` | crates/wallet-core/src/reducer/settings.rs:8-115 | a policy or passphrase mode changes only to a change that was rendered and then confirmed under the same id in the same session |
| `WalletSettingsHistory.AttemptLimitIsConstant` | crates/wallet-core/src/policy.rs:63-79 | no run changes the attempt limit |
| `WalletSettingsHistory.PolicyIsItsHistory` | crates/wallet-core/src/reducer/settings.rs:86-115 | in every run the policy is what the settings reported complete, applied in order, make of the first one |
| `WalletSettingsHistory.StoredIsAppliedIff` | crates/wallet-core/src/reducer/settings.rs:86-115 | for each kind of change the state that a stored change leads to while its flow waits for it; otherwise the report is refused and changes nothing |
| `WalletSettingsHistory.WaitingEndsIff` | crates/wallet-core/src/reducer/auth.rs:206-250 | a state waiting for the storage is left exactly by the answer, a reboot, a lock, an expiry of its session, the loss of its host under a locking policy, a failure or tampering; all else leaves it unchanged |
| `WalletSettingsHistory.StoredChangeAppliesIff` | crates/wallet-core/src/reducer/settings.rs:35-115 | in every run a reported change, last sent to the storage at step b, is made exactly when no such input came in between |
| `WalletSettingsHistory.UnaskedIsRefused` | crates/wallet-core/src/reducer/settings.rs:86-100 | the report of a change never sent to the storage is refused and changes nothing |
| `WalletSettingsHistory.LockDropsStoredChange` | crates/wallet-core/src/reducer/auth.rs:206-219 | every run that waits for the storage goes on to the changed policy, or with a lock in between to the locked wallet under the old policy |
| `WalletSettingsHistory.LockChangesTheOutcome` | crates/wallet-core/src/reducer/auth.rs:206-219 | two runs that differ by one lock and end under different policies, although the storage reported the confirmed change in both |
| `WalletPinHistory.CountGrows` | crates/wallet-core/src/reducer/auth.rs:88-127 | without a verified PIN the count never falls and grows with every accepted rejection |
| `WalletPinHistory.GuessesAreBounded` | crates/wallet-core/src/reducer/auth.rs:53-127 | under a wiping policy, however settings change, fewer rejections than the limit are accepted in a row, and the next counted one at the limit wipes |
| `WalletLifecycleHistory.SetupHistory` | crates/wallet-core/src/reducer/provisioning.rs:8-146 | a setup under way has walked the first stages of its mode, in order, under one id |
| `WalletLifecycleHistory.ProvisionedInOrder` | crates/wallet-core/src/reducer/provisioning.rs:8-180 | a wallet becomes provisioned only by the complete ordered sequence of its mode, uninterrupted; its passphrase mode is that of the event that started it, origin and backup status those of a created wallet or of the format recovered from |
| `WalletLifecycleHistory.BackupProvenance` | crates/wallet-core/src/reducer/maintenance.rs:40-69 | the step at which a verified backup of this wallet was verified on the device, unless the run began with it |
| `WalletLifecycleHistory.BackupVerifiedIff` | crates/wallet-core/src/reducer/maintenance.rs:40-69 | the backup of a wallet in use counts as verified exactly when it was restored so, or was verified on this device, during creation or by a valid check, since the wallet exists |
| `WalletFlowHistory.TrustedHostIsConfirmed` | crates/wallet-core/src/reducer/auth.rs:252-298 | a host goes to the trusted storage only on the confirmation of a pairing it requested and that was rendered in the same session |
| `WalletFlowHistory.CompletePairingIsStored` | crates/wallet-core/src/reducer/auth.rs:313-329 | a pairing completes only after its host went to the storage |
| `WalletFlowHistory.WipeIsJustified` | crates/wallet-core/src/reducer/maintenance.rs:71-105 | a wallet is wiped only on tampering, used-up attempts of a wiping policy, or a confirmed reset whose warning was rendered in the same session |
| `WalletFlowHistory.CompletionFollowsExecution` | crates/wallet-core/src/reducer/operation.rs:194-219 | an operation is completed only after it was handed out for execution, once, with nothing between |
| `WalletFlowHistory.EndedSessionIsCleared` | crates/wallet-core/src/reducer/auth.rs:206-250 | whenever a session or attempt ends, the runtime is told to clear secrets, to wipe, or that the PIN was wrong |
| `WalletFlowHistory.EndedFlowIsAnswered` | crates/wallet-core/src/reducer/mod.rs:11-85 | every flow that ends is answered under its own id, unless its session ended with it |
| `WalletAnswers.RunGoesOn` | crates/wallet-core/src/reducer/mod.rs:11-85 | a sequence of steps leads on from any run that has come to its first state |
| `WalletAnswers.CreationCompletes` | crates/wallet-core/src/reducer/provisioning.rs:8-180 | from a fresh device the six events of a creation, each with its request, lead to a locked wallet, generated, backup verified, with the passphrase mode asked for |
| `WalletAnswers.RecoveryCompletes` | crates/wallet-core/src/reducer/provisioning.rs:29-180 | likewise the five events of a recovery, to a wallet recovered from that format |
| `WalletAnswers.UnlockCompletes` | crates/wallet-core/src/reducer/auth.rs:8-204 | for every id, host, trust, session and wallet the four events of an unlock without passphrase lead from locked to that session |
| `WalletAnswers.PassphraseUnlockCompletes` | crates/wallet-core/src/reducer/auth.rs:8-204 | likewise the five with the passphrase provided, or skipped where it is optional |
| `WalletAnswers.UnlockAnswersTakeEffect` | crates/wallet-core/src/reducer/auth.rs:27-204 | in every reachable state the answer an unlock waits for leads to its next stage with its request, and changes nothing else |
| `WalletAnswers.RequiredIsNotSkipped` | crates/wallet-core/src/reducer/auth.rs:152-179 | skipping the passphrase is refused exactly for another attempt or where it is not optional |
| `WalletAnswers.ConfirmedOperationCompletes` | crates/wallet-core/src/reducer/operation.rs:9-219 | an admitted plan that needs it is rendered, displayed and confirmed with its kind and assurance as prepared, then executed and completed |
| `WalletAnswers.DisplayedOperationCompletes` | crates/wallet-core/src/reducer/operation.rs:9-219 | any other admitted plan, unless it is silent, is executed once it is displayed |
| `WalletAnswers.SilentOperationCompletes` | crates/wallet-core/src/reducer/operation.rs:9-219 | a silent custom plan is executed at once |
| `WalletAnswers.UnadmittedIsRefused` | crates/wallet-core/src/reducer/operation.rs:36-108 | a plan the policy does not admit ends its operation, with the reason, blind signing before host trust |
| `WalletAnswers.PairingCompletes` | crates/wallet-core/src/reducer/auth.rs:252-329 | a requested and confirmed pairing stores the session's host and completes |
| `WalletAnswers.SettingCompletes` | crates/wallet-core/src/reducer/settings.rs:8-115 | a requested and confirmed change goes to the storage and is made when it is stored |
| `WalletAnswers.MaintenanceCompletes` | crates/wallet-core/src/reducer/maintenance.rs:8-69 | a PIN change completes; a backup check marks the backup verified or reports it invalid |
| `WalletAnswers.ResetCompletes` | crates/wallet-core/src/reducer/maintenance.rs:71-129 | a requested and confirmed reset wipes the wallet and leaves a fresh device |
| `WalletAnswers.TamperWipes` | crates/wallet-core/src/reducer/common.rs:3-33 | tampering wipes a device that is not empty, in any state; a failure drops a setup under way |
| `WalletAnswers.EndingsTakeEffect` | crates/wallet-core/src/reducer/mod.rs:11-85 | each rejection, failure, cancellation and completion that fits its flow ends it with its report and changes nothing else |
| `WalletAnswers.RefusalReason` | crates/wallet-core/src/reducer/mod.rs:11-85 | in every reachable state the reason of a refusal: a wallet in the way, no wallet, a running flow, another id, or an event that does not fit |
| `WalletAnswers.UntimelyIsRefused` | crates/wallet-core/src/reducer/operation.rs:36-219 | an answer to the operation under way at the wrong stage leaves it alone |
| `WalletAnswers.StrictPolicyMeans` | crates/wallet-core/src/policy.rs:40-62 | under the strict policy the tenth wrong PIN wipes and no earlier one, a lost host locks, and exactly blind plans are refused |
| `KeyLifecycle.KeyLifecycle.BeginCreate` | crates/key-lifecycle/src/lib.rs:189-207 | stages fresh entropy of the wanted length unless something is staged or the source fails |
| `KeyLifecycle.KeyLifecycle.BeginRecovery` | crates/key-lifecycle/src/lib.rs:215-234 | stages a root of a valid length unless something is staged |
| `KeyLifecycle.KeyLifecycle.CommitPending` | crates/key-lifecycle/src/lib.rs:248-256 | stores what is staged, or keeps it staged when the store fails |
| `KeyLifecycle.KeyLifecycle.OpenContext` | crates/key-lifecycle/src/lib.rs:272-294 | opens a context over the stored root with the next id, errors in their order |
| `KeyLifecycle.KeyLifecycle.Wipe` | crates/key-lifecycle/src/lib.rs:301-306 | drops what is staged, and the stored root and the ids unless the store fails |
| `KeyLifecycle.EntropyLenIff` | crates/key-lifecycle/src/lib.rs:53-72 | four bytes of entropy for three words, and the sizes are exactly the valid root lengths |
| `KeyLifecycle.StagingAcceptedIff` | crates/key-lifecycle/src/lib.rs:189-234 | a staging call is accepted exactly when nothing is staged and it brings a root; it stages that root and changes nothing else; the errors otherwise |
| `KeyLifecycle.StoreFaultsDecide` | crates/key-lifecycle/src/lib.rs:236-306 | what commit, cancel and wipe leave staged, stored and counted, with a store that works or fails |
| `KeyLifecycle.PendingProvenance` | crates/key-lifecycle/src/lib.rs:189-261 | what is staged was staged by an accepted call, of a valid length, and kept since |
| `KeyLifecycle.StagedIff` | crates/key-lifecycle/src/lib.rs:189-261 | a root is staged exactly when an accepted call staged it and none has cancelled, committed or wiped since |
| `KeyLifecycle.StoredRootProvenance` | crates/key-lifecycle/src/lib.rs:248-306 | the stored root is the one staged at the last successful commit not followed by a successful wipe |
| `KeyLifecycle.InvalidStoredRootIff` | crates/key-lifecycle/src/lib.rs:272-286 | opening a context complains of the stored root exactly when the load succeeds, nothing was committed or wiped since the start, and the start held a root of another length |
| `KeyLifecycle.StoredRootStaysSound` | crates/key-lifecycle/src/lib.rs:189-306 | from an empty store or a root of a valid length every stored root has a valid length and the complaint never comes |
| `KeyLifecycle.RetriedCommitInstalls` | crates/key-lifecycle/src/lib.rs:248-256 | after any number of failed commits the one that succeeds installs the same root |
| `KeyLifecycle.OpensContextIff` | crates/key-lifecycle/src/lib.rs:272-294 | over any calls, a call opens a context exactly when it is an `OpenContext` whose load works, over an installed root of a valid length, with an id left; the context has that root, that call's passphrase, and the number of contexts opened since the last wipe plus one as its id |
| `KeyLifecycle.OpeningKeepsRoots` | crates/key-lifecycle/src/lib.rs:272-294 | opening never touches a root, and a refused opening has its error in the documented order |
| `KeyLifecycle.ContextIdsIncrease` | crates/key-lifecycle/src/lib.rs:288-293 | between successful wipes every opened context has a higher id than the one before |
| `AtomicStore.Store.SelectedRecord` | crates/firmware-budget/src/virtual_device.rs:164-170 | the valid record with the highest generation |
| `AtomicStore.Store.Commit` | crates/firmware-budget/src/virtual_device.rs:152-162 | the four writes in order, with what a reader finds behind each; a generation overflow panics before any write |
| `AtomicStore.WritesInOrder` | crates/firmware-budget/src/virtual_device.rs:152-162 | the four writes of a commit, one after the other: invalidate, number, digest, validate |
| `AtomicStore.CommitIsAtomic` | crates/firmware-budget/src/virtual_device.rs:152-170 | behind every prefix of the writes the complete old or the complete new record is selected, the selected slot is never written, generations rise by one |
| `AtomicStore.LastCompletedIsSelected` | crates/firmware-budget/src/virtual_device.rs:144-171 | after any number of commits cut off anywhere the last completed one is selected and its generation counts them |
| `WalletDemo.WalletDemo.constructor` | demos/browser-wallet/src/lib.rs:189-217 | the demo starts on the welcome screen over a blank domain |
| `WalletDemo.WalletDemo.Press` | demos/browser-wallet/src/lib.rs:261-389 | any press leads to the screen and the selection the one before leads to, keeps screen and domain together and restarts the idle time; the wallet opens exactly by the chosen PIN or the end of setup, signing starts, from zero ticks, exactly from the approval field, and one case changes the screen unannounced |
| `WalletDemo.UnannouncedPress` | demos/browser-wallet/src/lib.rs:261-275 | a press that changes the frame and not its number |
| `WalletDemo.WalletDemo.Tick` | demos/browser-wallet/src/lib.rs:394-427 | screen, openness and both counters move as one tick of the clock, and a new screen is announced |
| `WalletDemo.SigningGoesOnIff` | demos/browser-wallet/src/lib.rs:394-406 | over any sequence of ticks without a press, signing goes on exactly while they sum to less than 180, and the idle time stands still |
| `WalletDemo.FallsAsleepIff` | demos/browser-wallet/src/lib.rs:408-427 | over any sequence of ticks an open wallet falls asleep exactly when the idle time has come to 30 seconds, and keeps its screen until then |
| `WalletDemo.SigningThenSleep` | demos/browser-wallet/src/lib.rs:394-427 | the tick that brings the sum to 180 shows the signature, and behind it the idle time counts on to 30 seconds |
| `WalletDemo.WalletDemo.EditPin` | demos/browser-wallet/src/lib.rs:437-472 | the chosen digit is entered at its position in the array being filled and nowhere else; turning changes only the digit; the recovery words follow exactly two equal entries |
| `WalletDemo.WalletDemo.VerifyRecoveryWord` | demos/browser-wallet/src/lib.rs:474-510 | the setup completes, opening the wallet, exactly on the second correct word |
| `WalletDemo.WalletDemo.EnterDigit` | demos/browser-wallet/src/lib.rs:658-679 | the digit is entered at its position; the wallet opens exactly when the last digit completes the chosen PIN, and another last digit is a wrong PIN |
| `WalletDemo.WalletDemo.BeginReview` | demos/browser-wallet/src/lib.rs:684-713 | the three requests bring the reducer's operation under review |
| `WalletDemo.WalletDemo.ReviewInput` | demos/browser-wallet/src/lib.rs:715-754 | approval executes and restarts the signing time, rejection ends the operation, anything else leaves it under review |
| `WalletDemo.WalletDemo.UnlockDomain` | demos/browser-wallet/src/lib.rs:756-777 | the unlock events take a sealed domain to the open session |
| `WalletDemo.ScreensTellTheTruth` | demos/browser-wallet/src/lib.rs:40-91 | review and signing screens stand exactly over operations under review and executing, sealed screens over a locked wallet, the error screen is never shown, tables are indexed in range |
| `WalletDemo.WalletDemo.ConfirmDigit` | demos/browser-wallet/src/lib.rs:447-464 | the last digit of the repetition leads on exactly when both entries are equal |
| `WalletDemo.WalletDemo.DashboardInput` | demos/browser-wallet/src/lib.rs:512-532 | left and right turn the selection, both opens the selected entry |
| `WalletDemo.WalletDemo.ControlInput` | demos/browser-wallet/src/lib.rs:625-646 | likewise, locking or sleeping with a sealed domain |
| `WalletDemo.TurnsUndo` | demos/browser-wallet/src/lib.rs:1023-1029 | left and right undo each other and stay inside the menu |

## Left out

* Cryptography: SHA-256, HASH160, Keccak, HMAC, elliptic curves, BIP-32 and BIP-39 words are foreign code. A hash is any function, a signer any supplier of replies; a mnemonic is its entropy.
* Zeroisation and drop behaviour, which a functional model cannot observe.
* The request kinds `ShowAddress`, `ExportPublicKey` and `SignMessage` of `prepare_review` and the three `review_plan` functions: single branches. The public-key executions they lead to are modelled.
* A key target carries its path as the sequence of its components; `KeyPaths` shows that the bounded path is that sequence.
* Targets with a 32-bit `usize`, where an oversized length is refused with another error.
* The texts of the demo's screens and its mailbox encoder. A frame is modelled by the screen, the flags and the selection its text depends on.
* What the fail-closed `Error` screen of the demo reacts to: the screen is proved unreachable.
* `firmware-budget` apart from the two-slot store, the end-to-end examples and the Python tools: sizing, test harness, network clients. The digest of the store is any function.
* Durable PIN counters and the trusted-host records, which the repository leaves to backends; they appear as events.
* `KeyLifecycle.RootStore.PersistRoot`: a store that fails after writing is not modelled, because the trait's contract excludes it.
* `WalletProtocol.StepKeeps`: a pairing that is rejected after it was confirmed ends like any other; the record the backend may already hold is not part of the reducer.
