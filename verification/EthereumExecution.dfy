/** The Ethereum execution machine and what it guarantees over every sequence of
    replies the crypto runtime may feed it. */
module EthereumExecution {
  import opened Bytes
  import opened ChainApi
  import opened Rlp
  import opened Eip1559
  import opened Eip1559Signing
  import opened CryptoVocabulary
  import opened EthereumAdapter

  const EIP1559_PAYLOAD: u32 := 0x4554_0001

  datatype Response = PublicKeyResponse(keyBytes: bytes) | SignedTransaction(transaction: bytes)

  datatype Stage = Ready | AwaitingCrypto | Finished

  datatype Kind =
    | PublicKeyKind(key: KeyLocator, format: PublicKeyFormat)
    | Eip1559Kind(key: KeyLocator, unsigned: bytes)
  {
    predicate Valid() {
      Eip1559Kind? ==> |unsigned| <= MAX_UNSIGNED_TX_BYTES
    }

    /** The first crypto operation of the execution. */
    function Operation(): CryptoOperation {
      match this
      case PublicKeyKind(key, format) => DerivePublicKey(key, format)
      case Eip1559Kind(key, _) => Sign(key, Ecdsa(Secp256k1, true), Keccak256, EIP1559_PAYLOAD)
    }

    /** `payload`: the bytes a crypto operation may ask for. */
    function Payload(id: u32): Option<bytes> {
      if Eip1559Kind? && id == EIP1559_PAYLOAD then Some(unsigned) else None
    }
  }

  /** `prepare_execution` for a reviewed transfer. */
  function PrepareExecution(review: Eip1559Review, context: ExecutionContext): Kind {
    Eip1559Kind(context.BindKey(review.key), review.unsigned)
  }

  /** The reply that carries this signature. */
  function SignatureReply(signature: Eip1559Signature): CryptoOutput {
    Signature(Ecdsa(Secp256k1, true), signature.compact, Some(signature.yParity))
  }

  /** Accepts exactly the replies that carry a valid signature, and returns the one
      they carry; a reply that fails in its recovery id alone is told apart. */
  function CryptoSignature(result: Option<CryptoOutput>): (r: Result<Eip1559Signature, Error>)
    ensures r.Ok? ==> r.value.Valid() && result == Some(SignatureReply(r.value))
    ensures r.Ok? <==> exists signature: Eip1559Signature :: signature.Valid() && result == Some(SignatureReply(signature))
    ensures r.Err? ==>
              r.error == if exists compact, id :: |compact| == 64 && result == Some(Signature(Ecdsa(Secp256k1, true), compact, id))
                         then InvalidSignature else UnexpectedCryptoResult
  {
    if result.None? || !result.value.Signature? then Err(UnexpectedCryptoResult)
    else if result.value.scheme != Ecdsa(Secp256k1, true) || |result.value.signatureBytes| != 64 then
      Err(UnexpectedCryptoResult)
    else if result.value.recoveryId.None? || result.value.recoveryId.value > 1 then Err(InvalidSignature)
    else Ok(Eip1559Signature(result.value.signatureBytes, result.value.recoveryId.value))
  }

  function Respond(kind: Kind, result: Option<CryptoOutput>): Result<Response, Error>
    requires kind.Valid()
  {
    match kind
    case PublicKeyKind(_, format) =>
      if result.None? || !result.value.PublicKey? || result.value.format != format then Err(UnexpectedCryptoResult)
      else Ok(PublicKeyResponse(result.value.keyBytes))
    case Eip1559Kind(_, unsigned) =>
      var signature :- CryptoSignature(result);
      var signed :- Finalize(unsigned, signature);
      Ok(SignedTransaction(signed))
  }

  /** One call of `next`: the stage it leaves and what it returns. */
  function Step(kind: Kind, stage: Stage, result: Option<CryptoOutput>): (Stage, Result<ExecutionStep<Response>, Error>)
    requires kind.Valid()
  {
    match stage
    case Ready =>
      if result.Some? then (Ready, Err(UnexpectedCryptoResult))
      else (AwaitingCrypto, Ok(Crypto(kind.Operation())))
    case AwaitingCrypto =>
      var response := Respond(kind, result);
      if response.Ok? then (Finished, Ok(Complete(response.value))) else (AwaitingCrypto, Err(response.error))
    case Finished => (Finished, Err(ExecutionFinished))
  }

  class Execution {
    const kind: Kind
    var stage: Stage

    constructor (kind: Kind)
      ensures this.kind == kind && stage == Ready
    {
      this.kind := kind;
      stage := Ready;
    }

    method Next(result: Option<CryptoOutput>) returns (r: Result<ExecutionStep<Response>, Error>)
      requires kind.Valid()
      modifies this
      ensures (stage, r) == Step(kind, old(stage), result)
    {
      match stage {
        case Ready =>
          if result.Some? {
            return Err(UnexpectedCryptoResult);
          }
          stage := AwaitingCrypto;
          return Ok(Crypto(kind.Operation()));
        case AwaitingCrypto =>
          var response;
          match kind {
            case PublicKeyKind(_, format) =>
              if result.None? || !result.value.PublicKey? || result.value.format != format {
                return Err(UnexpectedCryptoResult);
              }
              response := PublicKeyResponse(result.value.keyBytes);
            case Eip1559Kind(_, unsigned) =>
              var signature :- CryptoSignature(result);
              var signed :- FinalizeEip1559(unsigned, signature);
              response := SignedTransaction(signed.AsSlice());
          }
          stage := Finished;
          return Ok(Complete(response));
        case Finished =>
          return Err(ExecutionFinished);
      }
    }
  }

  // ----- Runs -----

  /** An accepted call: the reply that was fed and the step that came back. */
  datatype Exchange = Exchange(reply: Option<CryptoOutput>, step: ExecutionStep<Response>)

  /** The accepted calls of a run, whatever replies are fed in whatever order. */
  function Run(kind: Kind, stage: Stage, replies: seq<Option<CryptoOutput>>): seq<Exchange>
    requires kind.Valid()
    decreases |replies|
  {
    if replies == [] then []
    else
      var (next, r) := Step(kind, stage, replies[0]);
      (if r.Ok? then [Exchange(replies[0], r.value)] else []) + Run(kind, next, replies[1..])
  }

  lemma {:induction false} FinishedRun(kind: Kind, replies: seq<Option<CryptoOutput>>)
    requires kind.Valid()
    ensures Run(kind, Finished, replies) == []
  {
    if replies != [] {
      FinishedRun(kind, replies[1..]);
    }
  }

  lemma {:induction false} AwaitingRun(kind: Kind, replies: seq<Option<CryptoOutput>>)
    requires kind.Valid()
    ensures var log := Run(kind, AwaitingCrypto, replies);
            log == [] || (|log| == 1 && Respond(kind, log[0].reply).Ok?
                          && log[0].step == Complete(Respond(kind, log[0].reply).value))
  {
    if replies != [] {
      if Respond(kind, replies[0]).Ok? {
        FinishedRun(kind, replies[1..]);
      } else {
        AwaitingRun(kind, replies[1..]);
      }
    }
  }

  /** Every run asks for its one crypto operation first and completes at most once,
      with the response to an accepted reply. */
  lemma {:induction false} RunShape(kind: Kind, replies: seq<Option<CryptoOutput>>)
    requires kind.Valid()
    ensures var log := Run(kind, Ready, replies);
            && |log| <= 2
            && (|log| >= 1 ==> log[0] == Exchange(None, Crypto(kind.Operation())))
            && (|log| == 2 ==> Respond(kind, log[1].reply).Ok?
                               && log[1].step == Complete(Respond(kind, log[1].reply).value))
  {
    if replies != [] {
      if replies[0].None? {
        AwaitingRun(kind, replies[1..]);
      } else {
        RunShape(kind, replies[1..]);
      }
    }
  }

  /** The replies that complete an execution: a key of the wanted format, or a
      recoverable signature over an envelope that can carry one. */
  ghost predicate Awaited(kind: Kind, reply: Option<CryptoOutput>)
    requires kind.Valid()
  {
    match kind
    case PublicKeyKind(_, format) => reply.Some? && reply.value.PublicKey? && reply.value.format == format
    case Eip1559Kind(_, unsigned) =>
      && TypedList(unsigned, UNSIGNED_FIELDS).Ok?
      && exists signature: Eip1559Signature :: signature.Valid() && reply == Some(SignatureReply(signature))
  }

  lemma RespondsIff(kind: Kind, reply: Option<CryptoOutput>)
    requires kind.Valid()
    ensures Respond(kind, reply).Ok? <==> Awaited(kind, reply)
  {
    if kind.Eip1559Kind? && CryptoSignature(reply).Ok? && TypedList(kind.unsigned, UNSIGNED_FIELDS).Ok? {
      FinalizePreservesFields(kind.unsigned, CryptoSignature(reply).value);
    }
  }

  lemma {:induction false} AwaitingCompletesIff(kind: Kind, replies: seq<Option<CryptoOutput>>)
    requires kind.Valid()
    ensures Run(kind, AwaitingCrypto, replies) != [] <==> exists j :: 0 <= j < |replies| && Awaited(kind, replies[j])
  {
    if replies != [] {
      RespondsIff(kind, replies[0]);
      if Respond(kind, replies[0]).Err? {
        AwaitingCompletesIff(kind, replies[1..]);
        if j :| 0 <= j < |replies| && Awaited(kind, replies[j]) {
          assert replies[1..][j - 1] == replies[j];
        }
      }
    }
  }

  /** A run asks for its operation exactly when it is called without a reply at all, and
      completes exactly when an awaited reply comes behind such a call. */
  lemma {:induction false} RunCompletesIff(kind: Kind, replies: seq<Option<CryptoOutput>>)
    requires kind.Valid()
    ensures |Run(kind, Ready, replies)| >= 1 <==> None in replies
    ensures |Run(kind, Ready, replies)| == 2 <==>
            exists i, j :: 0 <= i < j < |replies| && replies[i] == None && Awaited(kind, replies[j])
  {
    if replies != [] {
      var tail := replies[1..];
      if replies[0] == None {
        AwaitingRun(kind, tail);
        AwaitingCompletesIff(kind, tail);
        if j :| 0 <= j < |tail| && Awaited(kind, tail[j]) {
          assert replies[j + 1] == tail[j];
        }
        if i, j :| 0 <= i < j < |replies| && replies[i] == None && Awaited(kind, replies[j]) {
          assert tail[j - 1] == replies[j];
        }
      } else {
        RunCompletesIff(kind, tail);
        if i, j :| 0 <= i < j < |tail| && tail[i] == None && Awaited(kind, tail[j]) {
          assert replies[i + 1] == None && replies[j + 1] == tail[j];
        }
        if i, j :| 0 <= i < j < |replies| && replies[i] == None && Awaited(kind, replies[j]) {
          assert tail[i - 1] == None && tail[j - 1] == replies[j];
        }
      }
    }
  }

  /** A public-key execution asks for its one derivation, completes exactly on a key of
      its format, with that key, and neither signs nor serves a payload. */
  lemma PublicKeyRun(key: KeyLocator, format: PublicKeyFormat, replies: seq<Option<CryptoOutput>>)
    ensures var kind := PublicKeyKind(key, format);
            var log := Run(kind, Ready, replies);
            && |log| <= 2 && (forall id :: kind.Payload(id) == None)
            && (|log| >= 1 <==> None in replies)
            && (|log| >= 1 ==> log[0] == Exchange(None, Crypto(DerivePublicKey(key, format))))
            && (|log| == 2 <==>
                  exists i, j :: 0 <= i < j < |replies| && replies[i] == None && replies[j].Some?
                                 && replies[j].value.PublicKey? && replies[j].value.format == format)
            && (|log| == 2 ==>
                  && log[1].reply.Some? && log[1].reply.value.PublicKey? && log[1].reply.value.format == format
                  && log[1].step == Complete(PublicKeyResponse(log[1].reply.value.keyBytes)))
  {
    var kind := PublicKeyKind(key, format);
    RunShape(kind, replies);
    RunCompletesIff(kind, replies);
    var log := Run(kind, Ready, replies);
    if i, j :| 0 <= i < j < |replies| && replies[i] == None && replies[j].Some? && replies[j].value.PublicKey?
               && replies[j].value.format == format
    {
      assert Awaited(kind, replies[j]);
    }
  }

  /** What is reviewed is what is signed and sent: in every run of an accepted
      request the only signature asked for is over the canonical envelope of the
      reviewed transfer, with the wallet-bound key; and a completed run returns
      an envelope that tiles into that transfer's nine fields and an accepted
      signature. */
  lemma ReviewedIsSigned(key: KeyTarget, unsigned: bytes, context: ExecutionContext,
                         replies: seq<Option<CryptoOutput>>)
    requires |unsigned| <= MAX_UNSIGNED_TX_BYTES && ParseEip1559(key, unsigned).Ok?
    ensures var review := ParseEip1559(key, unsigned).value;
            var kind := PrepareExecution(review, context);
            && review.Valid() && review.Shown().Valid() && kind.Valid()
            && (var log := Run(kind, Ready, replies);
                && |log| <= 2
                && (|log| >= 1 ==>
                      && log[0].step == Crypto(Sign(context.BindKey(key), Ecdsa(Secp256k1, true), Keccak256, 0x4554_0001))
                      && kind.Payload(0x4554_0001) == Some(TransferEnvelope(review.Shown())))
                && (|log| == 2 ==>
                      && CryptoSignature(log[1].reply).Ok?
                      && log[1].step.Complete? && log[1].step.response.SignedTransaction?
                      && |log[1].step.response.transaction| <= MAX_SIGNED_TX_BYTES
                      && TypedList(log[1].step.response.transaction, SIGNED_FIELDS)
                         == Ok(TransferItems(review.Shown()) + SignatureItems(CryptoSignature(log[1].reply).value))))
  {
    var review := ParseEip1559(key, unsigned).value;
    AcceptedIffCanonical(key, unsigned, review);
    var kind := PrepareExecution(review, context);
    RunShape(kind, replies);
    var log := Run(kind, Ready, replies);
    if |log| == 2 {
      FinalizePreservesFields(unsigned, CryptoSignature(log[1].reply).value);
      var items := TransferItems(review.Shown());
      TransferItemsCanonical(review.Shown());
      var body := TransferBody(review.Shown());
      TypedListIff(unsigned, UNSIGNED_FIELDS, items);
    }
  }
}
