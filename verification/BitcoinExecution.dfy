/** The Bitcoin execution machine, driven by whatever replies the crypto runtime
    feeds it, and what every run of it guarantees. */
module BitcoinExecution {
  import opened Bytes
  import opened ChainApi
  import opened CryptoVocabulary
  import opened BitcoinWire
  import opened BitcoinDer
  import opened BitcoinTransaction
  import opened BitcoinPsbt
  import opened BitcoinAdapter

  const PUBKEY_HASH_PAYLOAD: u32 := 0x4254_0001
  const PREVOUTS_PAYLOAD: u32 := 0x4254_0002
  const SEQUENCE_PAYLOAD: u32 := 0x4254_0003
  const OUTPUTS_PAYLOAD: u32 := 0x4254_0004
  const BIP143_PAYLOAD: u32 := 0x4254_0005

  const ECDSA: SignatureScheme := Ecdsa(Secp256k1, false)

  datatype Response = PublicKeyResponse(keyBytes: bytes) | SignedTransaction(transaction: bytes)

  datatype Stage =
    | Ready
    | AwaitingPublicKey
    | AwaitingPubkeyHash
    | AwaitingPrevoutsHash
    | AwaitingSequenceHash
    | AwaitingOutputsHash
    | AwaitingSignature
    | Finished
  {
    function Rank(): nat {
      match this
      case Ready => 0
      case AwaitingPublicKey => 1
      case AwaitingPubkeyHash => 2
      case AwaitingPrevoutsHash => 3
      case AwaitingSequenceHash => 4
      case AwaitingOutputsHash => 5
      case AwaitingSignature => 6
      case Finished => 7
    }
  }

  datatype Kind =
    | PublicKeyKind(key: KeyLocator, format: PublicKeyFormat)
    | P2wpkhKind(key: KeyLocator, tx: ParsedTransaction, inputAmount: u64, inputProgram: bytes,
                 expectedPubkey: Option<bytes>, publicKey: bytes, prevoutPayload: bytes, outputPayload: bytes,
                 hashPrevouts: bytes, hashSequence: bytes, hashOutputs: bytes, preimage: bytes)
  {
    predicate Valid() {
      P2wpkhKind? ==>
        && tx.Valid() && |inputProgram| == 20 && |publicKey| == 33
        && |hashPrevouts| == 32 && |hashSequence| == 32 && |hashOutputs| == 32
        && prevoutPayload == tx.input.Prevout() && outputPayload == tx.SerializedOutput()
    }

    /** `payload`: the bytes a crypto operation may ask for. */
    function Payload(id: u32): Option<bytes> {
      if PublicKeyKind? then None
      else if id == PUBKEY_HASH_PAYLOAD then Some(publicKey)
      else if id == PREVOUTS_PAYLOAD then Some(prevoutPayload)
      else if id == SEQUENCE_PAYLOAD then Some(tx.input.sequence)
      else if id == OUTPUTS_PAYLOAD then Some(outputPayload)
      else if id == BIP143_PAYLOAD then Some(preimage)
      else None
    }
  }

  /** `prepare_execution` for a reviewed PSBT. */
  function PrepareExecution(review: P2wpkhReview, context: ExecutionContext): Kind
    requires review.inputAmount <= U64_MAX
  {
    P2wpkhKind(context.BindKey(review.key), review.tx, review.inputAmount, review.inputProgram, review.psbtPubkey,
               Zeros(33), review.tx.input.Prevout(), review.tx.SerializedOutput(),
               Zeros(32), Zeros(32), Zeros(32), [])
  }

  // ----- One call of `next` -----

  datatype Outcome = Outcome(kind: Kind, stage: Stage, result: Result<ExecutionStep<Response>, Error>)

  function HashOf(payload: u32): ExecutionStep<Response> {
    Crypto(Hash(DoubleSha256, payload))
  }

  /** `digest_bytes`. */
  function DigestBytes(reply: Option<CryptoOutput>, algorithm: HashAlgorithm, len: nat): (r: Result<bytes, Error>)
    ensures r.Ok? <==>
            && reply.Some? && reply.value.Digest? && reply.value.algorithm == algorithm
            && |reply.value.digestBytes| == len
    ensures r.Ok? ==> r.value == reply.value.digestBytes
  {
    if reply.None? || !reply.value.Digest? then Err(UnexpectedCryptoResult)
    else if reply.value.algorithm != algorithm || |reply.value.digestBytes| != len then Err(InvalidDigest)
    else Ok(reply.value.digestBytes)
  }

  function StepPublicKey(kind: Kind, reply: Option<CryptoOutput>): Outcome {
    if reply.None? || !reply.value.PublicKey? then Outcome(kind, AwaitingPublicKey, Err(UnexpectedCryptoResult))
    else if kind.PublicKeyKind? then
      if reply.value.format != kind.format then Outcome(kind, AwaitingPublicKey, Err(UnexpectedCryptoResult))
      else Outcome(kind, Finished, Ok(Complete(PublicKeyResponse(reply.value.keyBytes))))
    else if reply.value.format != Compressed || |reply.value.keyBytes| != 33 then
      Outcome(kind, AwaitingPublicKey, Err(UnexpectedCryptoResult))
    else
      var stored := kind.(publicKey := reply.value.keyBytes);
      if kind.expectedPubkey.Some? && kind.expectedPubkey.value != reply.value.keyBytes then
        Outcome(stored, AwaitingPublicKey, Err(PublicKeyMismatch))
      else Outcome(stored, AwaitingPubkeyHash, Ok(Crypto(Hash(Hash160, PUBKEY_HASH_PAYLOAD))))
  }

  function StepPubkeyHash(kind: Kind, reply: Option<CryptoOutput>): Outcome {
    if kind.PublicKeyKind? then Outcome(kind, AwaitingPubkeyHash, Err(UnexpectedCryptoResult))
    else
      var digest := DigestBytes(reply, Hash160, 20);
      if digest.Err? then Outcome(kind, AwaitingPubkeyHash, Err(digest.error))
      else if digest.value != kind.inputProgram then Outcome(kind, AwaitingPubkeyHash, Err(WitnessProgramMismatch))
      else Outcome(kind, AwaitingPrevoutsHash, Ok(HashOf(PREVOUTS_PAYLOAD)))
  }

  function StepPrevoutsHash(kind: Kind, reply: Option<CryptoOutput>): Outcome {
    var digest := DigestBytes(reply, DoubleSha256, 32);
    if digest.Err? then Outcome(kind, AwaitingPrevoutsHash, Err(digest.error))
    else if kind.PublicKeyKind? then Outcome(kind, AwaitingPrevoutsHash, Err(UnexpectedCryptoResult))
    else Outcome(kind.(hashPrevouts := digest.value), AwaitingSequenceHash, Ok(HashOf(SEQUENCE_PAYLOAD)))
  }

  function StepSequenceHash(kind: Kind, reply: Option<CryptoOutput>): Outcome {
    var digest := DigestBytes(reply, DoubleSha256, 32);
    if digest.Err? then Outcome(kind, AwaitingSequenceHash, Err(digest.error))
    else if kind.PublicKeyKind? then Outcome(kind, AwaitingSequenceHash, Err(UnexpectedCryptoResult))
    else Outcome(kind.(hashSequence := digest.value), AwaitingOutputsHash, Ok(HashOf(OUTPUTS_PAYLOAD)))
  }

  function StepOutputsHash(kind: Kind, reply: Option<CryptoOutput>): Outcome {
    var digest := DigestBytes(reply, DoubleSha256, 32);
    if digest.Err? then Outcome(kind, AwaitingOutputsHash, Err(digest.error))
    else if kind.PublicKeyKind? then Outcome(kind, AwaitingOutputsHash, Err(UnexpectedCryptoResult))
    else
      var preimage := Preimage(kind.tx, FixedLE(kind.inputAmount, 8), kind.inputProgram,
                               kind.hashPrevouts, kind.hashSequence, digest.value);
      Outcome(kind.(hashOutputs := digest.value, preimage := preimage), AwaitingSignature,
              Ok(Crypto(Sign(kind.key, ECDSA, DoubleSha256, BIP143_PAYLOAD))))
  }

  function StepSignature(kind: Kind, reply: Option<CryptoOutput>): Outcome
    requires kind.Valid()
  {
    if reply.None? || !reply.value.Signature? then Outcome(kind, AwaitingSignature, Err(UnexpectedCryptoResult))
    else if reply.value.scheme != ECDSA || |reply.value.signatureBytes| != 64 || reply.value.recoveryId.Some? then
      Outcome(kind, AwaitingSignature, Err(InvalidSignature))
    else if ValidateCompact(reply.value.signatureBytes).Err? then
      Outcome(kind, AwaitingSignature, Err(ValidateCompact(reply.value.signatureBytes).error))
    else if kind.PublicKeyKind? then Outcome(kind, AwaitingSignature, Err(UnexpectedCryptoResult))
    else
      var signed := SerializeSigned(kind.tx, P2wpkhWitness(reply.value.signatureBytes, kind.publicKey));
      if signed.Err? then Outcome(kind, AwaitingSignature, Err(signed.error))
      else Outcome(kind, Finished, Ok(Complete(SignedTransaction(signed.value))))
  }

  function Step(kind: Kind, stage: Stage, reply: Option<CryptoOutput>): Outcome
    requires kind.Valid()
  {
    match stage
    case Ready =>
      if reply.Some? then Outcome(kind, Ready, Err(UnexpectedCryptoResult))
      else Outcome(kind, AwaitingPublicKey,
                   Ok(Crypto(DerivePublicKey(kind.key, if kind.PublicKeyKind? then kind.format else Compressed))))
    case AwaitingPublicKey => StepPublicKey(kind, reply)
    case AwaitingPubkeyHash => StepPubkeyHash(kind, reply)
    case AwaitingPrevoutsHash => StepPrevoutsHash(kind, reply)
    case AwaitingSequenceHash => StepSequenceHash(kind, reply)
    case AwaitingOutputsHash => StepOutputsHash(kind, reply)
    case AwaitingSignature => StepSignature(kind, reply)
    case Finished => Outcome(kind, Finished, Err(ExecutionFinished))
  }

  class Execution {
    var kind: Kind
    var stage: Stage

    constructor (kind: Kind)
      ensures this.kind == kind && stage == Ready
    {
      this.kind := kind;
      stage := Ready;
    }

    method Next(reply: Option<CryptoOutput>) returns (r: Result<ExecutionStep<Response>, Error>)
      requires kind.Valid()
      modifies this
      ensures Outcome(kind, stage, r) == Step(old(kind), old(stage), reply)
    {
      match stage {
        case Ready =>
          if reply.Some? {
            return Err(UnexpectedCryptoResult);
          }
          stage := AwaitingPublicKey;
          var format := if kind.PublicKeyKind? then kind.format else Compressed;
          return Ok(Crypto(DerivePublicKey(kind.key, format)));
        case AwaitingPublicKey =>
          r := AcceptPublicKey(reply);
        case AwaitingPubkeyHash =>
          r := AcceptPubkeyHash(reply);
        case AwaitingPrevoutsHash =>
          r := AcceptComponentHash(reply, true, SEQUENCE_PAYLOAD, AwaitingSequenceHash);
        case AwaitingSequenceHash =>
          r := AcceptComponentHash(reply, false, OUTPUTS_PAYLOAD, AwaitingOutputsHash);
        case AwaitingOutputsHash =>
          r := AcceptOutputsHash(reply);
        case AwaitingSignature =>
          r := AcceptSignature(reply);
        case Finished =>
          return Err(ExecutionFinished);
      }
    }

    method AcceptPublicKey(reply: Option<CryptoOutput>) returns (r: Result<ExecutionStep<Response>, Error>)
      requires stage == AwaitingPublicKey
      modifies this
      ensures Outcome(kind, stage, r) == StepPublicKey(old(kind), reply)
    {
      if reply.None? || !reply.value.PublicKey? {
        return Err(UnexpectedCryptoResult);
      }
      if kind.PublicKeyKind? {
        if reply.value.format != kind.format {
          return Err(UnexpectedCryptoResult);
        }
        stage := Finished;
        return Ok(Complete(PublicKeyResponse(reply.value.keyBytes)));
      }
      if reply.value.format != Compressed || |reply.value.keyBytes| != 33 {
        return Err(UnexpectedCryptoResult);
      }
      kind := kind.(publicKey := reply.value.keyBytes);
      if kind.expectedPubkey.Some? && kind.expectedPubkey.value != kind.publicKey {
        return Err(PublicKeyMismatch);
      }
      stage := AwaitingPubkeyHash;
      return Ok(Crypto(Hash(Hash160, PUBKEY_HASH_PAYLOAD)));
    }

    method AcceptPubkeyHash(reply: Option<CryptoOutput>) returns (r: Result<ExecutionStep<Response>, Error>)
      requires stage == AwaitingPubkeyHash
      modifies this
      ensures Outcome(kind, stage, r) == StepPubkeyHash(old(kind), reply)
    {
      if kind.PublicKeyKind? {
        return Err(UnexpectedCryptoResult);
      }
      var digest :- DigestBytes(reply, Hash160, 20);
      if digest != kind.inputProgram {
        return Err(WitnessProgramMismatch);
      }
      stage := AwaitingPrevoutsHash;
      return Ok(HashOf(PREVOUTS_PAYLOAD));
    }

    method AcceptComponentHash(reply: Option<CryptoOutput>, prevouts: bool, nextPayload: u32, nextStage: Stage)
      returns (r: Result<ExecutionStep<Response>, Error>)
      modifies this
      ensures var digest := DigestBytes(reply, DoubleSha256, 32);
              if digest.Err? then r == Err(digest.error) && kind == old(kind) && stage == old(stage)
              else if old(kind).PublicKeyKind? then r == Err(UnexpectedCryptoResult) && kind == old(kind)
                  && stage == old(stage)
              else && r == Ok(HashOf(nextPayload)) && stage == nextStage
                   && kind == if prevouts then old(kind).(hashPrevouts := digest.value)
                              else old(kind).(hashSequence := digest.value)
    {
      var digest :- DigestBytes(reply, DoubleSha256, 32);
      if kind.PublicKeyKind? {
        return Err(UnexpectedCryptoResult);
      }
      if prevouts {
        kind := kind.(hashPrevouts := digest);
      } else {
        kind := kind.(hashSequence := digest);
      }
      stage := nextStage;
      return Ok(HashOf(nextPayload));
    }

    method AcceptOutputsHash(reply: Option<CryptoOutput>) returns (r: Result<ExecutionStep<Response>, Error>)
      requires stage == AwaitingOutputsHash && kind.Valid()
      modifies this
      ensures Outcome(kind, stage, r) == StepOutputsHash(old(kind), reply)
    {
      var digest :- DigestBytes(reply, DoubleSha256, 32);
      if kind.PublicKeyKind? {
        return Err(UnexpectedCryptoResult);
      }
      kind := kind.(hashOutputs := digest);
      var preimage := BuildBip143Preimage(kind.tx, FixedLE(kind.inputAmount, 8), kind.inputProgram, kind.prevoutPayload,
                                          kind.hashPrevouts, kind.hashSequence, kind.hashOutputs);
      kind := kind.(preimage := preimage.AsSlice());
      stage := AwaitingSignature;
      return Ok(Crypto(Sign(kind.key, ECDSA, DoubleSha256, BIP143_PAYLOAD)));
    }

    method AcceptSignature(reply: Option<CryptoOutput>) returns (r: Result<ExecutionStep<Response>, Error>)
      requires stage == AwaitingSignature && kind.Valid()
      modifies this
      ensures Outcome(kind, stage, r) == StepSignature(old(kind), reply)
    {
      if reply.None? || !reply.value.Signature? {
        return Err(UnexpectedCryptoResult);
      }
      if reply.value.scheme != ECDSA || |reply.value.signatureBytes| != 64 || reply.value.recoveryId.Some? {
        return Err(InvalidSignature);
      }
      var compact := reply.value.signatureBytes;
      var _ :- ValidateCompact(compact);
      if kind.PublicKeyKind? {
        return Err(UnexpectedCryptoResult);
      }
      var signed := SerializeSignedTransaction(kind.tx, compact, kind.publicKey);
      assert signed.Ok?;
      stage := Finished;
      return Ok(Complete(SignedTransaction(signed.value.AsSlice())));
    }
  }

  // ----- What one call may change -----

  lemma StepKeepsValid(kind: Kind, stage: Stage, reply: Option<CryptoOutput>)
    requires kind.Valid()
    ensures Step(kind, stage, reply).kind.Valid()
  {
  }

  /** An accepted call raises the stage by exactly one, except that a public-key
      execution finishes right behind its one derivation. */
  lemma AcceptedRaisesStage(kind: Kind, stage: Stage, reply: Option<CryptoOutput>)
    requires kind.Valid() && Step(kind, stage, reply).result.Ok?
    ensures var next := Step(kind, stage, reply).stage;
            if kind.PublicKeyKind? && stage == AwaitingPublicKey then next == Finished
            else next.Rank() == stage.Rank() + 1
  {
  }

  /** The reply each stage waits for. */
  predicate Awaited(kind: Kind, stage: Stage, reply: Option<CryptoOutput>)
    requires kind.P2wpkhKind?
  {
    match stage
    case Ready => reply == None
    case AwaitingPublicKey =>
      && reply.Some? && reply.value.PublicKey? && reply.value.format == Compressed && |reply.value.keyBytes| == 33
      && (kind.expectedPubkey == None || kind.expectedPubkey == Some(reply.value.keyBytes))
    case AwaitingPubkeyHash => reply == Some(Digest(Hash160, kind.inputProgram))
    case AwaitingPrevoutsHash => IsDoubleHash(reply)
    case AwaitingSequenceHash => IsDoubleHash(reply)
    case AwaitingOutputsHash => IsDoubleHash(reply)
    case AwaitingSignature =>
      && reply.Some? && reply.value.Signature? && reply.value.scheme == Ecdsa(Secp256k1, false)
      && reply.value.recoveryId == None && IsLowS(reply.value.signatureBytes)
    case Finished => false
  }

  predicate IsDoubleHash(reply: Option<CryptoOutput>) {
    reply.Some? && reply.value.Digest? && reply.value.algorithm == DoubleSha256 && |reply.value.digestBytes| == 32
  }

  /** 64 bytes with non-zero halves, the second at most half the group order. */
  predicate IsLowS(compact: bytes) {
    |compact| == 64 && FromBE(compact[..32]) != 0 && 0 < FromBE(compact[32..]) && 2 * FromBE(compact[32..]) < GROUP_ORDER
  }

  lemma IsLowSIff(compact: bytes)
    requires |compact| == 64
    ensures ValidateCompact(compact).Ok? <==> IsLowS(compact)
  {
    ValidIffLowS(compact);
    HalfOrderIsHalf();
  }

  /** A call is accepted exactly when it brings the reply its stage waits for. */
  lemma AcceptedIff(kind: Kind, stage: Stage, reply: Option<CryptoOutput>)
    requires kind.Valid() && kind.P2wpkhKind?
    ensures Step(kind, stage, reply).result.Ok? <==> Awaited(kind, stage, reply)
  {
    if reply.Some? && reply.value.Signature? && |reply.value.signatureBytes| == 64 {
      IsLowSIff(reply.value.signatureBytes);
    }
  }

  /** The runtime reports a compressed key that is not the one the PSBT named. */
  predicate ForeignKey(kind: Kind, stage: Stage, reply: Option<CryptoOutput>) {
    && kind.P2wpkhKind? && stage == AwaitingPublicKey
    && reply.Some? && reply.value.PublicKey? && reply.value.format == Compressed && |reply.value.keyBytes| == 33
    && kind.expectedPubkey.Some? && kind.expectedPubkey.value != reply.value.keyBytes
  }

  /** A rejected call never moves the stage. It leaves everything else alone too,
      exactly unless a foreign key is reported that differs from the stored one:
      that key is stored although the call fails. */
  lemma RejectedUnchangedIff(kind: Kind, stage: Stage, reply: Option<CryptoOutput>)
    requires kind.Valid() && Step(kind, stage, reply).result.Err?
    ensures Step(kind, stage, reply).stage == stage
    ensures Step(kind, stage, reply).kind == kind <==>
            !(ForeignKey(kind, stage, reply) && reply.value.keyBytes != kind.publicKey)
    ensures ForeignKey(kind, stage, reply) ==>
            && Step(kind, stage, reply).result == Err(PublicKeyMismatch)
            && Step(kind, stage, reply).kind == kind.(publicKey := reply.value.keyBytes)
  {
    if ForeignKey(kind, stage, reply) {
      assert kind.(publicKey := reply.value.keyBytes).publicKey == reply.value.keyBytes;
      if kind.publicKey == reply.value.keyBytes {
        assert kind.(publicKey := reply.value.keyBytes) == kind;
      }
    }
  }

  /** A rejected call that changes the execution. */
  lemma MismatchOverwrites() returns (kind: Kind, reply: Option<CryptoOutput>)
    ensures kind.Valid() && Step(kind, AwaitingPublicKey, reply).result == Err(PublicKeyMismatch)
    ensures Step(kind, AwaitingPublicKey, reply).kind != kind
  {
    var input := TxInput(Zeros(32), Zeros(4), Zeros(4));
    var tx := ParsedTransaction(Zeros(4), input, Zeros(8), Zeros(20), Zeros(4));
    var target := KeyTarget(0, [], ExternalAddress);
    kind := P2wpkhKind(KeyLocator(0, target), tx, 0, Zeros(20), Some([2] + Zeros(32)), Zeros(33),
                       tx.input.Prevout(), tx.SerializedOutput(), Zeros(32), Zeros(32), Zeros(32), []);
    reply := Some(PublicKey(Compressed, [3] + Zeros(32)));
    assert ([2] + Zeros(32))[0] != ([3] + Zeros(32))[0];
    assert Zeros(33)[0] != ([3] + Zeros(32))[0];
    RejectedUnchangedIff(kind, AwaitingPublicKey, reply);
  }

  // ----- Runs -----

  /** An accepted call: the reply fed, the step returned, and the execution behind
      it, which serves the payload the step asks for. */
  datatype Exchange = Exchange(reply: Option<CryptoOutput>, step: ExecutionStep<Response>, after: Kind) {
    predicate AcceptsKey() {
      reply.Some? && reply.value.PublicKey? && reply.value.format == Compressed
    }

    function Key(): bytes
      requires AcceptsKey()
    {
      reply.value.keyBytes
    }

    predicate AcceptsDigest(algorithm: HashAlgorithm, len: nat) {
      reply.Some? && reply.value.Digest? && reply.value.algorithm == algorithm && |reply.value.digestBytes| == len
    }

    function Digest(): bytes
      requires reply.Some? && reply.value.Digest?
    {
      reply.value.digestBytes
    }

    predicate AcceptsSignature() {
      reply.Some? && reply.value.Signature? && reply.value.scheme == ECDSA && reply.value.recoveryId == None
    }

    function Compact(): bytes
      requires AcceptsSignature()
    {
      reply.value.signatureBytes
    }
  }

  datatype RunState = RunState(kind: Kind, stage: Stage, log: seq<Exchange>)

  /** The run over these replies; rejected calls leave no entry in the log. */
  function Run(start: Kind, replies: seq<Option<CryptoOutput>>): (s: RunState)
    requires start.Valid()
    ensures s.kind.Valid()
  {
    if replies == [] then RunState(start, Ready, [])
    else
      var n := |replies| - 1;
      var before := Run(start, replies[..n]);
      StepKeepsValid(before.kind, before.stage, replies[n]);
      var next := Step(before.kind, before.stage, replies[n]);
      RunState(next.kind, next.stage,
               before.log + (if next.result.Ok? then [Exchange(replies[n], next.result.value, next.kind)] else []))
  }

  /** Keys, amounts and the transaction never change during a run. */
  predicate SameRequest(start: Kind, kind: Kind) {
    && kind.P2wpkhKind? && start.P2wpkhKind?
    && kind.key == start.key && kind.tx == start.tx && kind.inputAmount == start.inputAmount
    && kind.inputProgram == start.inputProgram && kind.expectedPubkey == start.expectedPubkey
    && kind.prevoutPayload == start.prevoutPayload && kind.outputPayload == start.outputPayload
  }

  predicate DerivedFirst(start: Kind, log: seq<Exchange>)
    requires start.P2wpkhKind?
  {
    |log| >= 1 ==> log[0].reply == None && log[0].step == Crypto(DerivePublicKey(start.key, Compressed))
  }

  /** A 33-byte key, the PSBT's own if it names one, is then hashed. */
  predicate KeyAccepted(start: Kind, log: seq<Exchange>)
    requires start.P2wpkhKind?
  {
    |log| >= 2 ==>
      && log[1].AcceptsKey() && |log[1].Key()| == 33
      && (start.expectedPubkey.Some? ==> log[1].Key() == start.expectedPubkey.value)
      && log[1].step == Crypto(Hash(Hash160, PUBKEY_HASH_PAYLOAD))
      && log[1].after.Payload(PUBKEY_HASH_PAYLOAD) == Some(log[1].Key())
  }

  /** The digest of that key is the spent output's program. */
  predicate ProgramAccepted(start: Kind, log: seq<Exchange>)
    requires start.P2wpkhKind?
  {
    |log| >= 3 ==>
      && log[2].AcceptsDigest(Hash160, 20) && log[2].Digest() == start.inputProgram
      && log[2].step == HashOf(PREVOUTS_PAYLOAD)
      && log[2].after.Payload(PREVOUTS_PAYLOAD) == Some(start.tx.input.Prevout())
  }

  predicate ComponentsAccepted(start: Kind, log: seq<Exchange>)
    requires start.P2wpkhKind?
  {
    && (|log| >= 4 ==>
          && log[3].AcceptsDigest(DoubleSha256, 32) && log[3].step == HashOf(SEQUENCE_PAYLOAD)
          && log[3].after.Payload(SEQUENCE_PAYLOAD) == Some(start.tx.input.sequence))
    && (|log| >= 5 ==>
          && log[4].AcceptsDigest(DoubleSha256, 32) && log[4].step == HashOf(OUTPUTS_PAYLOAD)
          && log[4].after.Payload(OUTPUTS_PAYLOAD) == Some(start.tx.SerializedOutput()))
  }

  /** Only then a signature is asked for, over the BIP 143 preimage with the three
      accepted digests. */
  predicate SignatureAsked(start: Kind, log: seq<Exchange>)
    requires start.P2wpkhKind? && ComponentsAccepted(start, log)
  {
    |log| >= 6 ==>
      && log[5].AcceptsDigest(DoubleSha256, 32)
      && log[5].step == Crypto(Sign(start.key, ECDSA, DoubleSha256, BIP143_PAYLOAD))
      && log[5].after.Payload(BIP143_PAYLOAD)
         == Some(Preimage(start.tx, FixedLE(start.inputAmount, 8), start.inputProgram,
                          log[3].Digest(), log[4].Digest(), log[5].Digest()))
  }

  /** The run ends with the signed transaction of an accepted low-S signature under
      the accepted key. */
  predicate Completed(start: Kind, log: seq<Exchange>)
    requires start.P2wpkhKind? && start.Valid() && KeyAccepted(start, log)
  {
    |log| >= 7 ==>
      && |log| == 7
      && log[6].AcceptsSignature() && |log[6].Compact()| == 64 && ValidateCompact(log[6].Compact()).Ok?
      && log[6].step.Complete? && log[6].step.response.SignedTransaction?
      && SerializeSigned(start.tx, P2wpkhWitness(log[6].Compact(), log[1].Key())) == Ok(log[6].step.response.transaction)
  }

  predicate Follows(start: Kind, log: seq<Exchange>)
    requires start.P2wpkhKind? && start.Valid()
  {
    && |log| <= 7
    && DerivedFirst(start, log) && KeyAccepted(start, log) && ProgramAccepted(start, log)
    && ComponentsAccepted(start, log) && SignatureAsked(start, log) && Completed(start, log)
  }

  /** What the execution holds at each stage, in terms of the replies accepted. */
  predicate Remembers(s: RunState)
    requires |s.log| == s.stage.Rank() && s.kind.P2wpkhKind?
  {
    && (|s.log| >= 2 ==> s.log[1].AcceptsKey() && s.kind.publicKey == s.log[1].Key())
    && (|s.log| >= 4 ==> s.log[3].AcceptsDigest(DoubleSha256, 32) && s.kind.hashPrevouts == s.log[3].Digest())
    && (|s.log| >= 5 ==> s.log[4].AcceptsDigest(DoubleSha256, 32) && s.kind.hashSequence == s.log[4].Digest())
    && (|s.log| >= 6 ==> s.log[5].AcceptsDigest(DoubleSha256, 32) && s.kind.hashOutputs == s.log[5].Digest())
  }

  /** Whatever replies are fed in, the accepted calls of a P2WPKH execution are a
      prefix of the seven-step protocol. */
  lemma {:induction false} RunFollowsProtocol(start: Kind, replies: seq<Option<CryptoOutput>>)
    requires start.Valid() && start.P2wpkhKind?
    ensures var s := Run(start, replies);
            && |s.log| == s.stage.Rank() && SameRequest(start, s.kind)
            && Follows(start, s.log) && Remembers(s)
  {
    if replies != [] {
      var n := |replies| - 1;
      RunFollowsProtocol(start, replies[..n]);
      var before := Run(start, replies[..n]);
      var next := Step(before.kind, before.stage, replies[n]);
      if next.result.Ok? {
        AcceptedFollows(start, before, replies[n]);
      } else {
        RejectedUnchangedIff(before.kind, before.stage, replies[n]);
        assert before.log + [] == before.log;
      }
    }
  }

  lemma AcceptedFollows(start: Kind, before: RunState, reply: Option<CryptoOutput>)
    requires start.Valid() && before.kind.Valid() && SameRequest(start, before.kind)
    requires |before.log| == before.stage.Rank() && Follows(start, before.log) && Remembers(before)
    requires Step(before.kind, before.stage, reply).result.Ok?
    ensures var next := Step(before.kind, before.stage, reply);
            var log := before.log + [Exchange(reply, next.result.value, next.kind)];
            && |log| == next.stage.Rank() && SameRequest(start, next.kind) && Follows(start, log)
            && Remembers(RunState(next.kind, next.stage, log))
  {
    AcceptedRaisesStage(before.kind, before.stage, reply);
  }

  // ----- From the reviewed PSBT to the signed transaction -----

  lemma AcceptedReview(key: KeyTarget, psbt: bytes, review: P2wpkhReview, context: ExecutionContext)
    requires BitcoinPsbt.ParsePsbt(key, psbt) == Ok(review)
    ensures review.inputAmount <= U64_MAX && review.inputAmount < Pow256(8) && review.key == key
    ensures PrepareExecution(review, context).Valid()
  {
    ParsePsbtIff(key, psbt, review);
    var globals, inputs :| DescribesPsbt(psbt, key, review, globals, inputs);
    Pow256Eight();
  }

  /** The execution prepared for an accepted PSBT. */
  function Prepared(key: KeyTarget, psbt: bytes, context: ExecutionContext): (start: Kind)
    requires BitcoinPsbt.ParsePsbt(key, psbt).Ok?
    ensures start.Valid() && start.P2wpkhKind?
  {
    var review := BitcoinPsbt.ParsePsbt(key, psbt).value;
    AcceptedReview(key, psbt, review, context);
    PrepareExecution(review, context)
  }

  /** A private-key operation is asked for at one place of the log only. */
  lemma SignOnlySixth(start: Kind, replies: seq<Option<CryptoOutput>>, i: nat)
    requires start.Valid() && start.P2wpkhKind? && i < |Run(start, replies).log|
    requires Run(start, replies).log[i].step.Crypto? && Run(start, replies).log[i].step.operation.Sign?
    ensures i == 5
  {
    RunFollowsProtocol(start, replies);
  }

  /** Every digest fed back is the hash of the payload that was served for it. */
  ghost predicate HashesHonest(hash: (HashAlgorithm, bytes) -> bytes, log: seq<Exchange>) {
    forall i :: 0 <= i < |log| - 1 && log[i].step.Crypto? && log[i].step.operation.Hash? ==>
      HonestReply(hash, log[i].step.operation, log[i].after, log[i + 1].reply)
  }

  ghost predicate HonestReply(hash: (HashAlgorithm, bytes) -> bytes, operation: CryptoOperation, served: Kind,
                              reply: Option<CryptoOutput>)
    requires operation.Hash?
  {
    reply.Some? && reply.value.Digest? ==>
      Some(reply.value.digestBytes) == match served.Payload(operation.payload)
                                       case None => None
                                       case Some(payload) => Some(hash(operation.algorithm, payload))
  }

  /** What the review shows is what is signed. Over an accepted PSBT and any replies
      whose digests are honest, the one signature asked for is over the BIP 143
      preimage of the reviewed transaction, amount and program, byte by byte, under a key that
      hashes to the spent program and is the PSBT's own if it names one; and a
      completed run returns the reviewed transaction with that key and an accepted
      signature, which extraction gives back. */
  lemma ReviewedPsbtIsSigned(key: KeyTarget, psbt: bytes, review: P2wpkhReview, context: ExecutionContext,
                             replies: seq<Option<CryptoOutput>>, hash: (HashAlgorithm, bytes) -> bytes)
    requires BitcoinPsbt.ParsePsbt(key, psbt) == Ok(review)
    requires HashesHonest(hash, Run(Prepared(key, psbt, context), replies).log)
    ensures var log := Run(Prepared(key, psbt, context), replies).log;
            && |log| <= 7
            && (|log| >= 6 ==>
                  && log[1].AcceptsKey() && hash(Hash160, log[1].Key()) == review.inputProgram
                  && (review.psbtPubkey.Some? ==> log[1].Key() == review.psbtPubkey.value)
                  && log[5].step == Crypto(Sign(context.BindKey(key), Ecdsa(Secp256k1, false), DoubleSha256, 0x4254_0005))
                  && log[5].after.Payload(0x4254_0005).Some?
                  && var p := log[5].after.Payload(0x4254_0005).value;
                     var tx := review.tx;
                     IsBip143(p, tx, review.inputAmount, review.inputProgram,
                              hash(DoubleSha256, tx.input.txid + tx.input.vout), hash(DoubleSha256, tx.input.sequence),
                              hash(DoubleSha256, tx.outputValue + ([22, 0x00, 0x14] + tx.outputProgram))))
            && (|log| == 7 ==>
                  && log[6].AcceptsSignature() && |log[6].Compact()| == 64 && |log[1].Key()| == 33
                  && log[6].step.Complete? && log[6].step.response.SignedTransaction?
                  && var transaction := log[6].step.response.transaction;
                     var stack := P2wpkhWitness(log[6].Compact(), log[1].Key());
                     && |transaction| <= MAX_SIGNED_TX_BYTES && review.tx.Valid()
                     && SerializeSigned(review.tx, stack) == Ok(transaction)
                     && ExtractWitness(transaction) == Ok(stack))
  {
    var start := Prepared(key, psbt, context);
    AcceptedReview(key, psbt, review, context);
    RunFollowsProtocol(start, replies);
    var log := Run(start, replies).log;
    if |log| >= 6 {
      HonestDigest(hash, log, 1);
      HonestDigest(hash, log, 2);
      HonestDigest(hash, log, 3);
      HonestDigest(hash, log, 4);
      PreimagePlaces(review.tx, review.inputAmount, review.inputProgram,
                     log[3].Digest(), log[4].Digest(), log[5].Digest());
    }
    if |log| == 7 {
      SerializeRoundTrip(review.tx, P2wpkhWitness(log[6].Compact(), log[1].Key()));
    }
  }

  // ----- Every request can be signed -----

  /** The replies of a runtime that derives this key, hashes what it is served and signs. */
  function HonestReplies(start: Kind, key: bytes, compact: bytes, hash: (HashAlgorithm, bytes) -> bytes)
    : seq<Option<CryptoOutput>>
    requires start.P2wpkhKind?
  {
    [None, Some(PublicKey(Compressed, key)), Some(Digest(Hash160, hash(Hash160, key))),
     Some(Digest(DoubleSha256, hash(DoubleSha256, start.tx.input.Prevout()))),
     Some(Digest(DoubleSha256, hash(DoubleSha256, start.tx.input.sequence))),
     Some(Digest(DoubleSha256, hash(DoubleSha256, start.tx.SerializedOutput()))),
     Some(Signature(ECDSA, compact, None))]
  }

  /** Over every accepted PSBT an honest runtime whose key is the one spent from brings
      the execution to its end, with the reviewed transaction signed. */
  lemma HonestRunCompletes(key: KeyTarget, psbt: bytes, review: P2wpkhReview, context: ExecutionContext,
                           publicKey: bytes, compact: bytes, hash: (HashAlgorithm, bytes) -> bytes)
    requires BitcoinPsbt.ParsePsbt(key, psbt) == Ok(review)
    requires |publicKey| == 33 && hash(Hash160, publicKey) == review.inputProgram && IsLowS(compact)
    requires review.psbtPubkey == None || review.psbtPubkey == Some(publicKey)
    requires forall payload :: |hash(DoubleSha256, payload)| == 32
    ensures var start := Prepared(key, psbt, context);
            var s := Run(start, HonestReplies(start, publicKey, compact, hash));
            && s.stage == Finished && |s.log| == 7 && review.tx.Valid()
            && s.log[6].step.Complete? && s.log[6].step.response.SignedTransaction?
            && SerializeSigned(review.tx, P2wpkhWitness(compact, publicKey)) == Ok(s.log[6].step.response.transaction)
  {
    AcceptedReview(key, psbt, review, context);
    HonestStartCompletes(Prepared(key, psbt, context), publicKey, compact, hash);
  }

  lemma HonestStartCompletes(start: Kind, publicKey: bytes, compact: bytes, hash: (HashAlgorithm, bytes) -> bytes)
    requires start.Valid() && start.P2wpkhKind?
    requires |publicKey| == 33 && hash(Hash160, publicKey) == start.inputProgram && IsLowS(compact)
    requires start.expectedPubkey == None || start.expectedPubkey == Some(publicKey)
    requires forall payload :: |hash(DoubleSha256, payload)| == 32
    ensures var s := Run(start, HonestReplies(start, publicKey, compact, hash));
            && s.stage == Finished && |s.log| == 7
            && s.log[6].step.Complete? && s.log[6].step.response.SignedTransaction?
            && SerializeSigned(start.tx, P2wpkhWitness(compact, publicKey)) == Ok(s.log[6].step.response.transaction)
  {
    var replies := HonestReplies(start, publicKey, compact, hash);
    forall stage: Stage | stage.Rank() < 7 ensures Awaited(start, stage, replies[stage.Rank()]) {
      HonestReplyIsAwaited(start, publicKey, compact, hash, stage);
    }
    AwaitedRun(start, replies, 7);
    assert replies[..7] == replies;
    RunFollowsProtocol(start, replies);
  }

  lemma HonestReplyIsAwaited(start: Kind, publicKey: bytes, compact: bytes, hash: (HashAlgorithm, bytes) -> bytes,
                             stage: Stage)
    requires start.P2wpkhKind? && |publicKey| == 33 && hash(Hash160, publicKey) == start.inputProgram && IsLowS(compact)
    requires start.expectedPubkey == None || start.expectedPubkey == Some(publicKey)
    requires forall payload :: |hash(DoubleSha256, payload)| == 32
    requires stage.Rank() < 7
    ensures Awaited(start, stage, HonestReplies(start, publicKey, compact, hash)[stage.Rank()])
  {
  }

  lemma {:induction false} AwaitedRun(start: Kind, replies: seq<Option<CryptoOutput>>, n: nat)
    requires start.Valid() && start.P2wpkhKind? && |replies| == 7 && n <= 7
    requires forall stage: Stage :: stage.Rank() < 7 ==> Awaited(start, stage, replies[stage.Rank()])
    ensures var s := Run(start, replies[..n]);
            s.stage.Rank() == n && |s.log| == n && forall i :: 0 <= i < n ==> s.log[i].reply == replies[i]
  {
    if n > 0 {
      AwaitedRun(start, replies, n - 1);
      OneMoreReply(start, replies, n - 1);
    }
  }

  lemma OneMoreReply(start: Kind, replies: seq<Option<CryptoOutput>>, i: nat)
    requires start.Valid() && start.P2wpkhKind? && i < |replies| && Run(start, replies[..i]).stage.Rank() == i
    requires Awaited(start, Run(start, replies[..i]).stage, replies[i])
    ensures var s := Run(start, replies[..i + 1]);
            && s.stage.Rank() == i + 1 && |s.log| == i + 1 && s.log[i].reply == replies[i]
            && s.log[..i] == Run(start, replies[..i]).log
  {
    var before := Run(start, replies[..i]);
    RunFollowsProtocol(start, replies[..i]);
    assert replies[..i + 1][..i] == replies[..i];
    AcceptedIff(before.kind, before.stage, replies[i]);
    AcceptedRaisesStage(before.kind, before.stage, replies[i]);
  }

  lemma HonestDigest(hash: (HashAlgorithm, bytes) -> bytes, log: seq<Exchange>, i: nat)
    requires HashesHonest(hash, log) && i + 1 < |log|
    requires log[i].step.Crypto? && log[i].step.operation.Hash?
        && log[i].after.Payload(log[i].step.operation.payload).Some?
    requires log[i + 1].reply.Some? && log[i + 1].reply.value.Digest?
    ensures log[i + 1].Digest()
         == hash(log[i].step.operation.algorithm, log[i].after.Payload(log[i].step.operation.payload).value)
  {
    assert HonestReply(hash, log[i].step.operation, log[i].after, log[i + 1].reply);
  }

  /** A public-key execution accepts the start, and then exactly a key of its format. */
  lemma PublicKeyAcceptedIff(kind: Kind, stage: Stage, reply: Option<CryptoOutput>)
    requires kind.PublicKeyKind? && stage in {Ready, AwaitingPublicKey, Finished}
    ensures Step(kind, stage, reply).result.Ok? <==>
            || (stage == Ready && reply == None)
            || (stage == AwaitingPublicKey && reply.Some? && reply.value.PublicKey? && reply.value.format == kind.format)
  {
  }

  /** A public-key execution asks for its one derivation and answers with the key
      derived; it never asks for a signature. */
  lemma {:induction false} PublicKeyRun(start: Kind, replies: seq<Option<CryptoOutput>>)
    requires start.PublicKeyKind?
    ensures var s := Run(start, replies);
            && s.kind == start && (forall id :: s.kind.Payload(id) == None)
            && (s.stage == Ready ==> s.log == [])
            && (s.stage != Ready ==> |s.log| >= 1 && s.log[0].step == Crypto(DerivePublicKey(start.key, start.format)))
            && (s.stage == AwaitingPublicKey ==> |s.log| == 1)
            && s.stage in {Ready, AwaitingPublicKey, Finished}
            && (s.stage == Finished ==>
                  && |s.log| == 2 && s.log[1].reply.Some? && s.log[1].reply.value.PublicKey?
                  && s.log[1].reply.value.format == start.format
                  && s.log[1].step == Complete(PublicKeyResponse(s.log[1].reply.value.keyBytes)))
  {
    if replies != [] {
      PublicKeyRun(start, replies[..|replies| - 1]);
    }
  }
}
