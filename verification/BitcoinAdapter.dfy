/** The Bitcoin adapter's byte-level procedures, each proved against the wire,
    DER, transaction and PSBT specifications. */
module BitcoinAdapter {
  import opened Bytes
  import opened ChainApi
  import opened BitcoinWire
  import opened BitcoinDer
  import opened BitcoinTransaction
  import opened BitcoinPsbt
  import opened CryptoVocabulary

  const MAX_HASH_OUTPUT_PAYLOAD_BYTES: nat := 64
  const MAX_BIP143_PREIMAGE_BYTES: nat := 256

  // ----- Appends whose capacity suffices -----

  method PutSmallCompactSize(output: BoundedBytes, value: nat)
    requires output.Valid() && value < 0xfd && output.len + 1 <= output.data.Length
    modifies output`len, output.data
    ensures output.Valid() && output.len == old(output.len) + 1
    ensures output.AsSlice() == old(output.AsSlice()) + [value]
  {
    var appended := PushCompactSize(output, value);
    assert appended.Ok?;
  }

  // ----- DER -----

  /** The scan of `der_integer` for the first byte that is not zero. */
  method FirstNonZero(value: bytes) returns (first: nat)
    ensures first <= |value| && (first == |value| <==> AllZero(value))
    ensures Strip(value) == value[first..]
  {
    first := 0;
    while first < |value| && value[first] == 0
      invariant first <= |value|
      invariant AllZero(value[..first]) && Strip(value) == Strip(value[first..])
    {
      assert value[first..][1..] == value[first + 1..];
      assert value[..first + 1] == value[..first] + [0];
      first := first + 1;
    }
    if first == |value| {
      assert value == value[..first];
    } else {
      assert value[first..][0] == value[first] != 0;
    }
  }

  /** `der_integer`; an all-zero integer, which no caller passes, keeps one byte. */
  method DerIntegerBytes(value: bytes) returns (output: BoundedBytes)
    requires |value| == 32
    ensures fresh(output) && fresh(output.data) && output.Valid()
    ensures output.AsSlice() == if AllZero(value) then [0] else DerInteger(value)
  {
    var first := FirstNonZero(value);
    if first == |value| {
      first := |value| - 1;
      assert value[first] == 0 && |value[first..]| == 1 && value[first..][0] == value[first];
    }
    var significant := value[first..];
    output := new BoundedBytes(33);
    if significant[0] >= 0x80 {
      Put(output, [0]);
      assert output.AsSlice() == [0];
    }
    Put(output, significant);
    assert output.AsSlice() == if significant[0] >= 0x80 then [0] + significant else significant;
  }

  /** `encode_der_signature`; its 73-byte buffer always suffices. */
  method EncodeDerSignature(signature: bytes) returns (r: Result<BoundedBytes, Error>)
    requires |signature| == 64
    ensures match EncodeDer(signature)
            case Err(e) => r == Err(e)
            case Ok(der) => r.Ok? && fresh(r.value) && fresh(r.value.data) && r.value.Valid()
                            && r.value.data.Length == 73 && r.value.AsSlice() == der
  {
    var _ :- ValidateCompact(signature);
    var first := DerIntegerBytes(signature[..32]);
    var second := DerIntegerBytes(signature[32..]);
    var output := new BoundedBytes(73);
    PutDerSequence(output, first.AsSlice(), second.AsSlice());
    return Ok(output);
  }

  method PutTagged(output: BoundedBytes, v: bytes)
    requires output.Valid() && |v| <= 33 && output.len + 2 + |v| <= output.data.Length
    modifies output`len, output.data
    ensures output.Valid() && output.len == old(output.len) + 2 + |v|
    ensures output.AsSlice() == old(output.AsSlice()) + Tagged(v)
  {
    ghost var before := output.AsSlice();
    Put(output, [0x02]);
    Put(output, [|v|]);
    Put(output, v);
    assert [0x02] + [|v|] + v == Tagged(v);
    assert output.AsSlice() == before + ([0x02] + [|v|] + v);
  }

  method PutDerSequence(output: BoundedBytes, r: bytes, s: bytes)
    requires output.Valid() && output.AsSlice() == [] && output.data.Length == 73 && |r| <= 33 && |s| <= 33
    modifies output`len, output.data
    ensures output.Valid() && output.AsSlice() == DerSequence(r, s)
  {
    var bodyLen := 2 + |r| + 2 + |s|;
    Put(output, [0x30]);
    Put(output, [bodyLen]);
    assert output.AsSlice() == [0x30, 4 + |r| + |s|];
    Assoc3(output.AsSlice(), Tagged(r), Tagged(s));
    PutTagged(output, r);
    PutTagged(output, s);
  }

  /** `decode_der_signature`. */
  method DecodeDerSignature(der: bytes) returns (r: Result<bytes, Error>)
    requires |der| <= USIZE_MAX
    ensures r == DecodeDer(der)
  {
    var cursor := new Cursor(der);
    var tag :- cursor.ReadU8();
    if tag != 0x30 {
      return Err(InvalidSignature);
    }
    var sequenceLen: nat :- cursor.ReadU8();
    if sequenceLen + 2 != |der| {
      return Err(InvalidSignature);
    }
    var first :- ReadTagged(cursor);
    var second :- ReadTagged(cursor);
    var finished := cursor.IsFinished();
    if !finished {
      return Err(InvalidSignature);
    }
    var high :- DecodeDerInteger(first);
    var low :- DecodeDerInteger(second);
    var compact := high + low;
    var _ :- ValidateCompact(compact);
    return Ok(compact);
  }

  method ReadTagged(cursor: Cursor) returns (r: Result<bytes, Error>)
    requires cursor.Valid()
    modifies cursor
    ensures cursor.Valid() && cursor.Advanced(TakeTagged(old(cursor.Rest())), r)
  {
    var tag :- cursor.ReadU8();
    if tag != 0x02 {
      return Err(InvalidSignature);
    }
    var len :- cursor.ReadU8();
    r := cursor.ReadSlice(len);
  }

  // ----- Transactions -----

  method ReadInput(cursor: Cursor) returns (r: Result<TxInput, Error>)
    requires cursor.Valid()
    modifies cursor
    ensures cursor.Valid() && cursor.Advanced(TakeInput(old(cursor.Rest())), r)
  {
    var count :- cursor.ReadCompactSize();
    if count != 1 {
      return Err(UnsupportedInputCount);
    }
    var txid :- cursor.ReadSlice(32);
    var vout :- cursor.ReadSlice(4);
    var scriptLen :- cursor.ReadCompactSize();
    if scriptLen != 0 {
      return Err(NonEmptyScriptSig);
    }
    var sequence :- cursor.ReadSlice(4);
    return Ok(TxInput(txid, vout, sequence));
  }

  method ReadProgram(cursor: Cursor) returns (r: Result<bytes, Error>)
    requires cursor.Valid()
    modifies cursor
    ensures cursor.Valid() && cursor.Advanced(TakeProgram(old(cursor.Rest())), r)
  {
    var len :- cursor.ReadCompactSize();
    if len != 22 {
      return Err(UnsupportedScript);
    }
    var script :- cursor.ReadSlice(22);
    if script[..2] != [0x00, 0x14] {
      return Err(UnsupportedScript);
    }
    return Ok(script[2..]);
  }

  /** `parse_unsigned_transaction`. */
  method ParseUnsignedTransaction(raw: bytes) returns (r: Result<ParsedTransaction, Error>)
    requires |raw| <= USIZE_MAX
    ensures r == ParseUnsigned(raw)
  {
    var cursor := new Cursor(raw);
    var version :- cursor.ReadSlice(4);
    var input :- ReadInput(cursor);
    var outputs :- cursor.ReadCompactSize();
    if outputs != 1 {
      return Err(UnsupportedOutputCount);
    }
    var value :- cursor.ReadSlice(8);
    var program :- ReadProgram(cursor);
    var lockTime :- cursor.ReadSlice(4);
    var finished := cursor.IsFinished();
    if !finished {
      return Err(TrailingBytes);
    }
    return Ok(ParsedTransaction(version, input, value, program, lockTime));
  }

  /** `parse_witness_utxo`. */
  method ParseWitnessOutput(raw: bytes) returns (r: Result<(bytes, bytes), Error>)
    requires |raw| <= USIZE_MAX
    ensures r == ParseWitnessUtxo(raw)
  {
    var cursor := new Cursor(raw);
    var amount :- cursor.ReadSlice(8);
    var program :- ReadProgram(cursor);
    var finished := cursor.IsFinished();
    if !finished {
      return Err(TrailingBytes);
    }
    return Ok((amount, program));
  }

  /** `serialized_output`. */
  method SerializedOutput(tx: ParsedTransaction) returns (output: BoundedBytes)
    requires tx.Valid()
    ensures fresh(output) && fresh(output.data) && output.Valid()
    ensures output.AsSlice() == tx.SerializedOutput()
  {
    output := new BoundedBytes(MAX_HASH_OUTPUT_PAYLOAD_BYTES);
    Put(output, tx.outputValue);
    assert output.AsSlice() == tx.outputValue;
    Put(output, [22]);
    Put(output, [0x00, 0x14]);
    Put(output, tx.outputProgram);
    Assoc4(tx.outputValue, [22], [0x00, 0x14], tx.outputProgram);
    assert [22] + [0x00, 0x14] == [22, 0x00, 0x14];
  }

  method PutScriptCode(output: BoundedBytes, program: bytes)
    requires output.Valid() && |program| == 20 && output.len + 26 <= output.data.Length
    modifies output`len, output.data
    ensures output.Valid() && output.len == old(output.len) + 26
    ensures output.AsSlice() == old(output.AsSlice()) + ScriptCode(program)
  {
    ghost var before := output.AsSlice();
    Put(output, [25]);
    Put(output, [0x76, 0xa9, 0x14]);
    Put(output, program);
    Put(output, [0x88, 0xac]);
    assert output.AsSlice() == before + ([25] + [0x76, 0xa9, 0x14] + program + [0x88, 0xac]);
    assert [25] + [0x76, 0xa9, 0x14] == [25, 0x76, 0xa9, 0x14];
  }

  /** `build_bip143_preimage`; its 256-byte buffer always suffices. */
  method BuildBip143Preimage(tx: ParsedTransaction, amount: bytes, program: bytes, prevout: bytes,
                             hashPrevouts: bytes, hashSequence: bytes, hashOutputs: bytes)
    returns (preimage: BoundedBytes)
    requires PreimageShape(tx, amount, program, hashPrevouts, hashSequence, hashOutputs)
    requires prevout == tx.input.Prevout()
    ensures fresh(preimage) && fresh(preimage.data) && preimage.Valid()
    ensures preimage.AsSlice() == Preimage(tx, amount, program, hashPrevouts, hashSequence, hashOutputs)
  {
    preimage := new BoundedBytes(MAX_BIP143_PREIMAGE_BYTES);
    Put(preimage, tx.version);
    assert preimage.AsSlice() == tx.version;
    Put(preimage, hashPrevouts);
    Put(preimage, hashSequence);
    Put(preimage, prevout);
    PutScriptCode(preimage, program);
    Put(preimage, amount);
    Put(preimage, tx.input.sequence);
    Put(preimage, hashOutputs);
    Put(preimage, tx.lockTime);
    Put(preimage, FixedLE(SIGHASH_ALL, 4));
  }

  method PutInput(output: BoundedBytes, input: TxInput)
    requires output.Valid() && input.Valid() && output.len + 42 <= output.data.Length
    modifies output`len, output.data
    ensures output.Valid() && output.len == old(output.len) + 42
    ensures output.AsSlice() == old(output.AsSlice()) + input.Encoded()
  {
    ghost var before := output.AsSlice();
    PutSmallCompactSize(output, 1);
    Put(output, input.Prevout());
    PutSmallCompactSize(output, 0);
    Put(output, input.sequence);
    assert output.AsSlice() == before + ([1] + input.Prevout() + [0] + input.sequence);
    assert [1] + input.Prevout() + [0] + input.sequence == input.Encoded();
  }

  method PutPrefix(output: BoundedBytes, tx: ParsedTransaction)
    requires output.Valid() && output.AsSlice() == [] && output.data.Length == MAX_SIGNED_TX_BYTES && tx.Valid()
    modifies output`len, output.data
    ensures output.Valid() && output.len == 80
    ensures output.AsSlice() == Prefix(tx.version, tx.input, tx.outputValue).Encoded() + ProgramBytes(tx.outputProgram)
  {
    Put(output, tx.version);
    assert output.AsSlice() == tx.version;
    Put(output, [0x00, 0x01]);
    PutInput(output, tx.input);
    PutSmallCompactSize(output, 1);
    var serialized := SerializedOutput(tx);
    Put(output, serialized.AsSlice());
    ghost var input, tail := tx.input.Encoded(), tx.SerializedOutput();
    Assoc4(tx.version, [0x00, 0x01], input, [1] + tail);
    Assoc3([0x00, 0x01], input, [1] + tail);
    Assoc3(tx.version + [0x00, 0x01] + input, [1], tail);
    PrefixAppend(Prefix(tx.version, tx.input, tx.outputValue), ProgramBytes(tx.outputProgram));
  }

  method PutStack(output: BoundedBytes, der: bytes, publicKey: bytes)
    requires output.Valid() && |der| <= 73 && |publicKey| == 33 && output.len + 109 <= output.data.Length
    modifies output`len, output.data
    ensures output.Valid() && output.len <= old(output.len) + 109
    ensures output.AsSlice() == old(output.AsSlice()) + ([2] + (Counted(der) + ([33] + publicKey)))
  {
    ghost var before := output.AsSlice();
    PutSmallCompactSize(output, 2);
    PutSmallCompactSize(output, |der|);
    Put(output, der);
    PutSmallCompactSize(output, 33);
    Put(output, publicKey);
    ghost var size: bytes, head: bytes := [2], [|der|];
    Assoc3(before + size + head + der, [33], publicKey);
    Assoc4(before + size, head, der, [33] + publicKey);
    Assoc3(before, size, head + der + ([33] + publicKey));
  }

  /** `serialize_signed_transaction`; its 640-byte buffer always suffices. */
  method SerializeSignedTransaction(tx: ParsedTransaction, compact: bytes, publicKey: bytes)
    returns (r: Result<BoundedBytes, Error>)
    requires tx.Valid() && |compact| == 64 && |publicKey| == 33
    ensures match SerializeSigned(tx, P2wpkhWitness(compact, publicKey))
            case Err(e) => r == Err(e)
            case Ok(signed) => r.Ok? && fresh(r.value) && fresh(r.value.data) && r.value.Valid()
                               && r.value.AsSlice() == signed
  {
    var der :- EncodeDerSignature(compact);
    Put(der, [SIGHASH_ALL]);
    var output := new BoundedBytes(MAX_SIGNED_TX_BYTES);
    PutPrefix(output, tx);
    ghost var prefix, script := Prefix(tx.version, tx.input, tx.outputValue).Encoded(), ProgramBytes(tx.outputProgram);
    PutStack(output, der.AsSlice(), publicKey);
    ghost var stack := StackBytes(P2wpkhWitness(compact, publicKey));
    assert output.AsSlice() == prefix + script + stack;
    Put(output, tx.lockTime);
    assert output.AsSlice() == prefix + script + stack + tx.lockTime;
    ScriptCounted(tx.outputProgram);
    Assoc4(prefix, script, stack, tx.lockTime);
    Assoc3(script, stack, tx.lockTime);
    return Ok(output);
  }

  lemma ScriptCounted(program: bytes)
    requires |program| == 20
    ensures Counted([0x00, 0x14] + program) == ProgramBytes(program)
  {
  }

  /** `extract_p2wpkh_witness`. */
  method ExtractP2wpkhWitness(raw: bytes) returns (r: Result<P2wpkhWitness, Error>)
    requires |raw| <= USIZE_MAX
    ensures r == ExtractWitness(raw)
  {
    var cursor := new Cursor(raw);
    var prefix :- ReadPrefix(cursor);
    var scriptLen :- cursor.ReadCompactSize();
    var skipped :- cursor.ReadSlice(scriptLen);
    var stack :- ReadStack(cursor);
    var lockTime :- cursor.ReadSlice(4);
    var finished := cursor.IsFinished();
    if !finished {
      return Err(TrailingBytes);
    }
    return Ok(stack);
  }

  method ReadPrefix(cursor: Cursor) returns (r: Result<Prefix, Error>)
    requires cursor.Valid()
    modifies cursor
    ensures cursor.Valid() && cursor.Advanced(TakePrefix(old(cursor.Rest())), r)
  {
    var version :- cursor.ReadSlice(4);
    var marker :- cursor.ReadU8();
    if marker != 0 {
      return Err(InvalidUnsignedTransaction);
    }
    var flag :- cursor.ReadU8();
    if flag != 1 {
      return Err(InvalidUnsignedTransaction);
    }
    var input :- ReadInput(cursor);
    var outputs :- cursor.ReadCompactSize();
    if outputs != 1 {
      return Err(UnsupportedOutputCount);
    }
    var value :- cursor.ReadSlice(8);
    return Ok(Prefix(version, input, value));
  }

  method ReadSignature(cursor: Cursor) returns (r: Result<bytes, Error>)
    requires cursor.Valid()
    modifies cursor
    ensures cursor.Valid() && cursor.Advanced(TakeSignature(old(cursor.Rest())), r)
  {
    var signatureLen :- cursor.ReadCompactSize();
    var signature :- cursor.ReadSlice(signatureLen);
    if |signature| == 0 || signature[|signature| - 1] != 1 {
      return Err(UnsupportedSighash);
    }
    r := DecodeDerSignature(signature[..|signature| - 1]);
  }

  method ReadStack(cursor: Cursor) returns (r: Result<P2wpkhWitness, Error>)
    requires cursor.Valid()
    modifies cursor
    ensures cursor.Valid() && cursor.Advanced(TakeStack(old(cursor.Rest())), r)
  {
    var items :- cursor.ReadCompactSize();
    if items != 2 {
      return Err(InvalidSignature);
    }
    var compact :- ReadSignature(cursor);
    var keyLen :- cursor.ReadCompactSize();
    if keyLen != 33 {
      return Err(InvalidSignature);
    }
    var publicKey :- cursor.ReadSlice(33);
    return Ok(P2wpkhWitness(compact, publicKey));
  }

  // ----- The PSBT -----

  /** One key and value of a map, or nothing at its end. */
  method ReadField(cursor: Cursor) returns (r: Result<Option<Field>, Error>)
    requires cursor.Valid()
    modifies cursor
    ensures cursor.Valid()
    ensures cursor.Advanced(TakeField(old(cursor.Rest())), r)
    ensures r.Ok? && r.value.Some? ==> |r.value.value.value| <= USIZE_MAX
  {
    var keyLen :- cursor.ReadCompactSize();
    if keyLen == 0 {
      return Ok(None);
    }
    var mapKey :- cursor.ReadSlice(keyLen);
    var valueLen :- cursor.ReadCompactSize();
    var value :- cursor.ReadSlice(valueLen);
    return Ok(Some(Field(mapKey, value)));
  }

  /** The global loop of `parse_psbt`. */
  method ReadGlobals(cursor: Cursor) returns (r: Result<Option<bytes>, Error>)
    requires cursor.Valid()
    modifies cursor
    ensures cursor.Valid() && cursor.Advanced(FoldMap(old(cursor.Rest()), None, GlobalStep), r)
    ensures r.Ok? && r.value.Some? ==> |r.value.value| <= MAX_UNSIGNED_TX_BYTES
  {
    var unsigned: Option<bytes> := None;
    while true
      invariant cursor.Valid() && (unsigned.Some? ==> |unsigned.value| <= MAX_UNSIGNED_TX_BYTES)
      invariant FoldMap(cursor.Rest(), unsigned, GlobalStep) == FoldMap(old(cursor.Rest()), None, GlobalStep)
      decreases |cursor.Rest()|
    {
      TakeFieldShrinks(cursor.Rest());
      var field :- ReadField(cursor);
      if field.None? {
        break;
      }
      var mapKey, value := field.value.key, field.value.value;
      if mapKey == [0x00] {
        if unsigned.Some? {
          return Err(DuplicateField);
        }
        var copied :- FromSlice(MAX_UNSIGNED_TX_BYTES, value, InvalidUnsignedTransaction);
        unsigned := Some(copied.AsSlice());
      } else if mapKey == [0xfb] && value == [0, 0, 0, 0] {
      } else {
        return Err(UnsupportedGlobal);
      }
    }
    return Ok(unsigned);
  }

  /** The body of the input loop of `parse_psbt`. */
  method AcceptInputField(state: InputState, mapKey: bytes, value: bytes) returns (r: Result<InputState, Error>)
    requires mapKey != [] && |value| <= USIZE_MAX
    ensures r == InputStep(state, Field(mapKey, value))
  {
    var fieldType, keyData := mapKey[0], mapKey[1..];
    assert mapKey == [fieldType] + keyData;
    if fieldType == 0x00 && keyData == [] {
      if state.nonWitnessSeen || value == [] {
        return Err(DuplicateField);
      }
      r := Ok(state.(nonWitnessSeen := true));
    } else if fieldType == 0x01 && keyData == [] {
      if state.utxo.Some? {
        return Err(DuplicateField);
      }
      var utxo :- ParseWitnessOutput(value);
      r := Ok(state.(utxo := Some(utxo)));
    } else if fieldType == 0x03 && keyData == [] {
      if |value| != 4 {
        return Err(UnsupportedSighash);
      }
      r := Ok(state.(sighash := FromLE(value)));
    } else if fieldType == 0x06 && |keyData| == 33 {
      if state.pubkey.Some? {
        return Err(DuplicateField);
      }
      if |value| < 4 || (|value| - 4) % 4 != 0 {
        return Err(UnsupportedInput);
      }
      r := Ok(state.(pubkey := Some(keyData)));
    } else {
      r := Err(UnsupportedInput);
    }
  }

  /** The input loop of `parse_psbt`. */
  method ReadInputs(cursor: Cursor) returns (r: Result<InputState, Error>)
    requires cursor.Valid()
    modifies cursor
    ensures cursor.Valid() && cursor.Advanced(FoldMap(old(cursor.Rest()), INPUT_START, InputStep), r)
  {
    var state := INPUT_START;
    while true
      invariant cursor.Valid()
      invariant FoldMap(cursor.Rest(), state, InputStep) == FoldMap(old(cursor.Rest()), INPUT_START, InputStep)
      decreases |cursor.Rest()|
    {
      TakeFieldShrinks(cursor.Rest());
      var field :- ReadField(cursor);
      if field.None? {
        break;
      }
      state :- AcceptInputField(state, field.value.key, field.value.value);
    }
    return Ok(state);
  }

  /** The checks of `parse_psbt` behind the input map. */
  method ConcludePsbt(cursor: Cursor, key: KeyTarget, tx: ParsedTransaction, state: InputState)
    returns (r: Result<P2wpkhReview, Error>)
    requires cursor.Valid()
    modifies cursor
    ensures r == Conclude(key, tx, state, old(cursor.Rest()))
  {
    if state.sighash != SIGHASH_ALL {
      return Err(UnsupportedSighash);
    }
    var outputs :- cursor.ReadCompactSize();
    if outputs != 0 {
      return Err(UnsupportedOutput);
    }
    var finished := cursor.IsFinished();
    if !finished {
      return Err(TrailingBytes);
    }
    if state.utxo.None? {
      return Err(MissingWitnessUtxo);
    }
    var inputAmount, outputAmount := FromLE(state.utxo.value.0), tx.OutputAmount();
    if inputAmount < outputAmount {
      return Err(FeeUnderflow);
    }
    return Ok(P2wpkhReview(key, inputAmount, outputAmount, inputAmount - outputAmount, state.utxo.value.1,
                           tx.outputProgram, tx, state.pubkey));
  }

  /** `parse_psbt`. */
  method ParsePsbt(key: KeyTarget, psbt: BoundedBytes) returns (r: Result<P2wpkhReview, Error>)
    requires psbt.Valid()
    ensures r == BitcoinPsbt.ParsePsbt(key, psbt.AsSlice())
  {
    var cursor := new Cursor(psbt.AsSlice());
    var magic :- cursor.ReadSlice(5);
    if magic != MAGIC {
      return Err(InvalidPsbt);
    }
    var unsigned :- ReadGlobals(cursor);
    if unsigned.None? {
      return Err(InvalidPsbt);
    }
    var tx :- ParseUnsignedTransaction(unsigned.value);
    var state :- ReadInputs(cursor);
    r := ConcludePsbt(cursor, key, tx, state);
  }
}
