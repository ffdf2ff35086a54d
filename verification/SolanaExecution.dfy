/** The Solana execution machine and what every run of it guarantees. */
module SolanaExecution {
  import opened Bytes
  import opened ChainApi
  import opened CryptoVocabulary
  import opened SolanaWire
  import opened SolanaTransfer

  const TRANSFER_PAYLOAD: u32 := 0x534f_0001
  const MAX_SIGNED_TX_BYTES: nat := 640

  datatype Response = PublicKeyResponse(keyBytes: bytes) | SignedTransaction(transaction: bytes)

  datatype Stage = Ready | AwaitingPublicKey | AwaitingSignature | Finished

  datatype Kind =
    | PublicKeyKind(key: KeyLocator, format: PublicKeyFormat)
    | TransferKind(key: KeyLocator, signer: bytes, message: bytes)
  {
    predicate Valid() {
      TransferKind? ==> |message| <= MAX_MESSAGE_BYTES
    }

    function Payload(id: u32): Option<bytes> {
      if TransferKind? && id == TRANSFER_PAYLOAD then Some(message) else None
    }
  }

  /** `prepare_execution` for a reviewed transfer. */
  function PrepareExecution(review: TransferReview, context: ExecutionContext): Kind {
    TransferKind(context.BindKey(review.key), review.transfer.signer, review.message)
  }

  predicate ReportsKey(reply: Option<CryptoOutput>, format: PublicKeyFormat) {
    reply.Some? && reply.value.PublicKey? && reply.value.format == format
  }

  predicate ReportsSignature(reply: Option<CryptoOutput>) {
    && reply.Some? && reply.value.Signature? && reply.value.scheme == Ed25519
    && |reply.value.signatureBytes| == 64 && reply.value.recoveryId == None
  }

  /** One call of `next`: the stage it leaves and what it returns. */
  function Step(kind: Kind, stage: Stage, reply: Option<CryptoOutput>): (Stage, Result<ExecutionStep<Response>, Error>) {
    match stage
    case Ready =>
      if reply.Some? then (Ready, Err(UnexpectedCryptoResult))
      else (AwaitingPublicKey, Ok(Crypto(DerivePublicKey(kind.key, if kind.PublicKeyKind? then kind.format else Raw))))
    case AwaitingPublicKey =>
      if reply.None? || !reply.value.PublicKey? then (AwaitingPublicKey, Err(UnexpectedCryptoResult))
      else if kind.PublicKeyKind? then
        if !ReportsKey(reply, kind.format) then (AwaitingPublicKey, Err(UnexpectedCryptoResult))
        else (Finished, Ok(Complete(PublicKeyResponse(reply.value.keyBytes))))
      else if !ReportsKey(reply, Raw) || reply.value.keyBytes != kind.signer then (AwaitingPublicKey, Err(SignerMismatch))
      else (AwaitingSignature, Ok(Crypto(Sign(kind.key, Ed25519, NoHash, TRANSFER_PAYLOAD))))
    case AwaitingSignature =>
      if kind.PublicKeyKind? || reply.None?
          || !reply.value.Signature? then (AwaitingSignature, Err(UnexpectedCryptoResult))
      else if !ReportsSignature(reply) then (AwaitingSignature, Err(InvalidSignature))
      else (Finished, Ok(Complete(SignedTransaction([1] + reply.value.signatureBytes + kind.message))))
    case Finished => (Finished, Err(ExecutionFinished))
  }

  class Execution {
    const kind: Kind
    var stage: Stage

    constructor (kind: Kind)
      ensures this.kind == kind && stage == Ready
    {
      this.kind := kind;
      stage := Ready;
    }

    method Next(reply: Option<CryptoOutput>) returns (r: Result<ExecutionStep<Response>, Error>)
      requires kind.Valid()
      modifies this
      ensures (stage, r) == Step(kind, old(stage), reply)
    {
      match stage {
        case Ready =>
          if reply.Some? {
            return Err(UnexpectedCryptoResult);
          }
          stage := AwaitingPublicKey;
          match kind {
            case PublicKeyKind(key, format) =>
              return Ok(Crypto(DerivePublicKey(key, format)));
            case TransferKind(key, _, _) =>
              return Ok(Crypto(DerivePublicKey(key, Raw)));
          }
        case AwaitingPublicKey =>
          if reply.None? || !reply.value.PublicKey? {
            return Err(UnexpectedCryptoResult);
          }
          match kind {
            case PublicKeyKind(_, format) =>
              if reply.value.format != format {
                return Err(UnexpectedCryptoResult);
              }
              stage := Finished;
              return Ok(Complete(PublicKeyResponse(reply.value.keyBytes)));
            case TransferKind(key, signer, _) =>
              if reply.value.format != Raw || reply.value.keyBytes != signer {
                return Err(SignerMismatch);
              }
              stage := AwaitingSignature;
              return Ok(Crypto(Sign(key, Ed25519, NoHash, TRANSFER_PAYLOAD)));
          }
        case AwaitingSignature =>
          if kind.PublicKeyKind? || reply.None? || !reply.value.Signature? {
            return Err(UnexpectedCryptoResult);
          }
          if reply.value.scheme != Ed25519 || |reply.value.signatureBytes| != 64 || reply.value.recoveryId.Some? {
            return Err(InvalidSignature);
          }
          var transaction := new BoundedBytes(MAX_SIGNED_TX_BYTES);
          PutShortVec(transaction, 1);
          Put(transaction, reply.value.signatureBytes);
          Put(transaction, kind.message);
          stage := Finished;
          assert [] + [1] == [1];
          return Ok(Complete(SignedTransaction(transaction.AsSlice())));
        case Finished =>
          return Err(ExecutionFinished);
      }
    }
  }

  // ----- Runs -----

  /** An accepted call: the reply that was fed and the step that came back. */
  datatype Exchange = Exchange(reply: Option<CryptoOutput>, step: ExecutionStep<Response>)

  datatype RunState = RunState(stage: Stage, log: seq<Exchange>)

  /** The run over these replies; rejected calls leave no entry in the log. */
  function Run(kind: Kind, replies: seq<Option<CryptoOutput>>): RunState {
    if replies == [] then RunState(Ready, [])
    else
      var n := |replies| - 1;
      var before := Run(kind, replies[..n]);
      var (stage, r) := Step(kind, before.stage, replies[n]);
      RunState(stage, before.log + (if r.Ok? then [Exchange(replies[n], r.value)] else []))
  }

  /** Whatever is fed in, the accepted calls are a prefix of: derive the key; on the
      message's own signer ask for the signature; on an Ed25519 signature complete. */
  lemma {:induction false} RunFollowsProtocol(kind: Kind, replies: seq<Option<CryptoOutput>>)
    requires kind.TransferKind?
    ensures var s := Run(kind, replies);
            && |s.log| == (match s.stage case Ready => 0 case AwaitingPublicKey => 1 case AwaitingSignature => 2 case Finished => 3)
            && (|s.log| >= 1 ==> s.log[0] == Exchange(None, Crypto(DerivePublicKey(kind.key, Raw))))
            && (|s.log| >= 2 ==>
                  && s.log[1].reply == Some(PublicKey(Raw, kind.signer))
                  && s.log[1].step == Crypto(Sign(kind.key, Ed25519, NoHash, TRANSFER_PAYLOAD)))
            && (|s.log| == 3 ==>
                  && ReportsSignature(s.log[2].reply)
                  && s.log[2].step == Complete(SignedTransaction([1] + s.log[2].reply.value.signatureBytes + kind.message)))
  {
    if replies != [] {
      RunFollowsProtocol(kind, replies[..|replies| - 1]);
    }
  }

  /** What is reviewed is what is signed: in every run of an accepted request the
      signature is over the one message of the reviewed transfer, asked for under
      the reviewed key and only once that key derives the transfer's signer. */
  lemma ReviewedIsSigned(key: KeyTarget, message: bytes, review: TransferReview, context: ExecutionContext,
                         replies: seq<Option<CryptoOutput>>, i: nat)
    requires ParseTransfer(key, message) == Ok(review)
    requires i < |Run(PrepareExecution(review, context), replies).log|
    ensures var kind := PrepareExecution(review, context);
            var log := Run(kind, replies).log;
            && kind.Valid()
            && (log[i].step.Crypto? && log[i].step.operation.Sign? ==>
                  && log[i].step.operation.signKey == context.BindKey(key)
                  && log[i].reply == Some(PublicKey(Raw, review.transfer.signer))
                  && log[i].step.operation.signPayload == 0x534f_0001
                  && kind.Payload(0x534f_0001) == Some(review.transfer.Message()))
            && (log[i].step.Complete? ==>
                  && i == 2 && ReportsSignature(log[2].reply)
                  && log[2].step.response
                     == SignedTransaction([1] + log[2].reply.value.signatureBytes + review.transfer.Message()))
  {
    ParseTransferIff(key, message, review);
    RunFollowsProtocol(PrepareExecution(review, context), replies);
  }

  /** A call is accepted exactly when it brings the reply its stage waits for. */
  lemma AcceptedIff(kind: Kind, stage: Stage, reply: Option<CryptoOutput>)
    requires kind.PublicKeyKind? ==> stage != AwaitingSignature
    ensures Step(kind, stage, reply).1.Ok? <==>
            match stage
            case Ready => reply == None
            case AwaitingPublicKey =>
              if kind.PublicKeyKind? then reply.Some? && reply.value.PublicKey? && reply.value.format == kind.format
              else reply == Some(PublicKey(Raw, kind.signer))
            case AwaitingSignature =>
              && reply.Some? && reply.value.Signature? && reply.value.scheme == Ed25519
              && |reply.value.signatureBytes| == 64 && reply.value.recoveryId == None
            case Finished => false
  {
  }

  /** Over every accepted request a runtime that derives the transfer's signer and signs
      brings the execution to its end, with the signed message. */
  lemma HonestRunCompletes(key: KeyTarget, message: bytes, review: TransferReview, context: ExecutionContext, signature: bytes)
    requires ParseTransfer(key, message) == Ok(review) && |signature| == 64
    ensures var replies := [None, Some(PublicKey(Raw, review.transfer.signer)), Some(Signature(Ed25519, signature, None))];
            var s := Run(PrepareExecution(review, context), replies);
            && s.stage == Finished && |s.log| == 3
            && s.log[2].step == Complete(SignedTransaction([1] + signature + review.transfer.Message()))
  {
    ParseTransferIff(key, message, review);
    HonestKindCompletes(PrepareExecution(review, context), signature);
  }

  lemma HonestKindCompletes(kind: Kind, signature: bytes)
    requires kind.TransferKind? && |signature| == 64
    ensures var s := Run(kind, [None, Some(PublicKey(Raw, kind.signer)), Some(Signature(Ed25519, signature, None))]);
            && s.stage == Finished && |s.log| == 3
            && s.log[2].step == Complete(SignedTransaction([1] + signature + kind.message))
  {
    var start: seq<Option<CryptoOutput>> := [None];
    var key, signed := Some(PublicKey(Raw, kind.signer)), Some(Signature(Ed25519, signature, None));
    OneMoreReply(kind, [], None);
    OneMoreReply(kind, [None], key);
    OneMoreReply(kind, [None, key], signed);
    assert [] + start == start && start + [key] == [None, key] && [None, key] + [signed] == [None, key, signed];
  }

  lemma OneMoreReply(kind: Kind, replies: seq<Option<CryptoOutput>>, reply: Option<CryptoOutput>)
    ensures var before := Run(kind, replies);
            var (stage, r) := Step(kind, before.stage, reply);
            Run(kind, replies + [reply])
            == RunState(stage, before.log + (if r.Ok? then [Exchange(reply, r.value)] else []))
  {
    assert (replies + [reply])[..|replies|] == replies;
  }

  /** A public-key execution asks for its one derivation, answers with the key derived
      and never asks for a signature. */
  lemma {:induction false} PublicKeyRun(kind: Kind, replies: seq<Option<CryptoOutput>>)
    requires kind.PublicKeyKind?
    ensures var s := Run(kind, replies);
            && |s.log| <= 2 && (forall id :: kind.Payload(id) == None)
            && s.stage == (if |s.log| == 0 then Ready else if |s.log| == 1 then AwaitingPublicKey else Finished)
            && (|s.log| >= 1 ==> s.log[0] == Exchange(None, Crypto(DerivePublicKey(kind.key, kind.format))))
            && (|s.log| == 2 ==>
                  && ReportsKey(s.log[1].reply, kind.format)
                  && s.log[1].step == Complete(PublicKeyResponse(s.log[1].reply.value.keyBytes)))
  {
    if replies != [] {
      PublicKeyRun(kind, replies[..|replies| - 1]);
    }
  }
}
