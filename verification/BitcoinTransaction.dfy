/** One-input, one-output P2WPKH transactions: the unsigned form, the signing
    preimage (BIP 143, "Specification") and the signed form (BIP 144,
    "Serialization"). */
module BitcoinTransaction {
  import opened Bytes
  import opened BitcoinWire
  import opened BitcoinDer

  const SIGHASH_ALL: u32 := 1
  const MAX_UNSIGNED_TX_BYTES: nat := 512
  const MAX_SIGNED_TX_BYTES: nat := 640

  lemma TakeIff(s: bytes, v: bytes, rest: bytes)
    ensures Take(s, |v|) == Ok(Read(v, rest)) <==> s == v + rest
  {
    if s == v + rest {
      TakeFront(v, rest);
    }
  }

  lemma LeadingSlices(u: bytes, w: bytes)
    ensures forall a, b :: 0 <= a <= b <= |u| ==> (u + w)[a..b] == u[a..b]
  {
  }

  lemma TrailingSlices(u: bytes, w: bytes)
    ensures forall a, b :: |u| <= a <= b <= |u| + |w| ==> (u + w)[a..b] == w[a - |u|..b - |u|]
  {
  }

  // ----- Inputs and outputs -----

  datatype TxInput = TxInput(txid: bytes, vout: bytes, sequence: bytes) {
    predicate Valid() {
      |txid| == 32 && |vout| == 4 && |sequence| == 4
    }

    /** The input vector: one input with an empty script. */
    function Encoded(): bytes {
      [1] + (txid + (vout + ([0] + sequence)))
    }

    function Prevout(): bytes {
      txid + vout
    }
  }

  function TakeInput(s: bytes): Result<Read<TxInput>, Error> {
    var count :- TakeCompactSize(s);
    if count.value != 1 then Err(UnsupportedInputCount)
    else
      var txid :- Take(count.rest, 32);
      var vout :- Take(txid.rest, 4);
      var script :- TakeCompactSize(vout.rest);
      if script.value != 0 then Err(NonEmptyScriptSig)
      else
        var sequence :- Take(script.rest, 4);
        Ok(Read(TxInput(txid.value, vout.value, sequence.value), sequence.rest))
  }

  lemma SmallCompactSize(s: bytes, n: nat, rest: bytes)
    requires n < 0xfd
    ensures TakeCompactSize(s) == Ok(Read(n, rest)) <==> s == [n] + rest
  {
    CompactSizeIff(s, n, rest);
  }

  lemma TakeInputIff(s: bytes, input: TxInput, rest: bytes)
    ensures TakeInput(s) == Ok(Read(input, rest)) <==> input.Valid() && s == input.Encoded() + rest
  {
    var a, b, c, d: bytes := [1], input.txid, input.vout, [0];
    var e := input.sequence;
    var s4 := e + rest;
    var s3 := d + s4;
    var s2 := c + s3;
    var s1 := b + s2;
    assert input.Encoded() + rest == a + s1 by {
      Assoc3(d, e, rest);
      Assoc3(c, d + e, rest);
      Assoc3(b, c + (d + e), rest);
      Assoc3(a, b + (c + (d + e)), rest);
    }
    if TakeInput(s) == Ok(Read(input, rest)) {
      SmallCompactSize(s, 1, TakeCompactSize(s).value.rest);
      var afterVout := Take(Take(TakeCompactSize(s).value.rest, 32).value.rest, 4).value.rest;
      SmallCompactSize(afterVout, 0, TakeCompactSize(afterVout).value.rest);
    }
    if input.Valid() && s == a + s1 {
      SmallCompactSize(s, 1, s1);
      TakeIff(s1, b, s2);
      TakeIff(s2, c, s3);
      SmallCompactSize(s3, 0, s4);
      TakeIff(s4, e, rest);
    }
  }

  /** A version-0 witness program of 20 bytes with its length. */
  function ProgramBytes(program: bytes): bytes {
    [22, 0x00, 0x14] + program
  }

  function TakeProgram(s: bytes): Result<Read<bytes>, Error> {
    var len :- TakeCompactSize(s);
    if len.value != 22 then Err(UnsupportedScript)
    else
      var script :- Take(len.rest, 22);
      if script.value[..2] != [0x00, 0x14] then Err(UnsupportedScript)
      else Ok(Read(script.value[2..], script.rest))
  }

  lemma TakeProgramIff(s: bytes, program: bytes, rest: bytes)
    ensures TakeProgram(s) == Ok(Read(program, rest)) <==> |program| == 20 && s == ProgramBytes(program) + rest
  {
    var script := [0x00, 0x14] + program;
    assert ProgramBytes(program) + rest == [22] + (script + rest);
    if TakeProgram(s) == Ok(Read(program, rest)) {
      var tail := TakeCompactSize(s).value.rest;
      SmallCompactSize(s, 22, tail);
      assert tail[..22] == tail[..22][..2] + tail[..22][2..];
    }
    if |program| == 20 && s == ProgramBytes(program) + rest {
      SmallCompactSize(s, 22, script + rest);
      TakeIff(script + rest, script, rest);
      assert script[..2] == [0x00, 0x14] && script[2..] == program;
    }
  }

  // ----- The unsigned transaction -----

  datatype ParsedTransaction = ParsedTransaction(
    version: bytes, input: TxInput, outputValue: bytes, outputProgram: bytes, lockTime: bytes)
  {
    predicate Valid() {
      |version| == 4 && input.Valid() && |outputValue| == 8 && |outputProgram| == 20 && |lockTime| == 4
    }

    function OutputAmount(): nat {
      FromLE(outputValue)
    }

    /** `serialized_output`: the amount and the script with its length. */
    function SerializedOutput(): bytes {
      outputValue + ProgramBytes(outputProgram)
    }

    /** The one unsigned serialization of this transaction. */
    function Unsigned(): bytes {
      version + (input.Encoded() + ([1] + (outputValue + (ProgramBytes(outputProgram) + lockTime))))
    }
  }

  /** `parse_unsigned_transaction`. */
  function ParseUnsigned(raw: bytes): Result<ParsedTransaction, Error> {
    var version :- Take(raw, 4);
    var input :- TakeInput(version.rest);
    var outputs :- TakeCompactSize(input.rest);
    if outputs.value != 1 then Err(UnsupportedOutputCount)
    else
      var value :- Take(outputs.rest, 8);
      var program :- TakeProgram(value.rest);
      var lockTime :- Take(program.rest, 4);
      if lockTime.rest != [] then Err(TrailingBytes)
      else Ok(ParsedTransaction(version.value, input.value, value.value, program.value, lockTime.value))
  }

  /** A byte string parses to a transaction exactly when it is the serialization
      of that transaction. */
  lemma ParseUnsignedIff(raw: bytes, tx: ParsedTransaction)
    ensures ParseUnsigned(raw) == Ok(tx) <==> tx.Valid() && raw == tx.Unsigned()
  {
    if ParseUnsigned(raw) == Ok(tx) {
      ParseUnsignedSound(raw, tx);
    }
    if tx.Valid() && raw == tx.Unsigned() {
      ParseUnsignedComplete(tx);
    }
  }

  /** The unsigned serialization, byte by byte: one input without a script, one output
      to a version-0 program of 20 bytes. */
  lemma UnsignedPlaces(tx: ParsedTransaction)
    requires tx.Valid()
    ensures var raw := tx.Unsigned();
            && |raw| == 82
            && raw[..4] == tx.version && raw[4..5] == [1] && raw[5..37] == tx.input.txid && raw[37..41] == tx.input.vout
            && raw[41..42] == [0] && raw[42..46] == tx.input.sequence && raw[46..47] == [1] && raw[47..55] == tx.outputValue
            && raw[55..58] == [22, 0x00, 0x14] && raw[58..78] == tx.outputProgram && raw[78..82] == tx.lockTime
  {
    var u := tx.version + [1] + tx.input.txid + tx.input.vout + [0];
    var w := tx.input.sequence + [1] + tx.outputValue + [22, 0x00, 0x14] + tx.outputProgram + tx.lockTime;
    UnsignedHalves(tx);
    UnsignedTail(tx);
    LeadingSlices(u, w);
    TrailingSlices(u, w);
  }

  lemma UnsignedHalves(tx: ParsedTransaction)
    ensures tx.Unsigned()
         == (tx.version + [1] + tx.input.txid + tx.input.vout + [0])
            + (tx.input.sequence + [1] + tx.outputValue + [22, 0x00, 0x14] + tx.outputProgram + tx.lockTime)
  {
    var a := tx.version + [1] + tx.input.txid + tx.input.vout + [0];
    var b := tx.input.sequence + [1] + tx.outputValue + ProgramBytes(tx.outputProgram) + tx.lockTime;
    assert tx.version + tx.input.Encoded() == a + tx.input.sequence;
    var output := [1] + (tx.outputValue + (ProgramBytes(tx.outputProgram) + tx.lockTime));
    assert tx.Unsigned() == tx.version + tx.input.Encoded() + output && b == tx.input.sequence + output;
  }

  lemma UnsignedTail(tx: ParsedTransaction)
    requires tx.Valid()
    ensures var w := tx.input.sequence + [1] + tx.outputValue + [22, 0x00, 0x14] + tx.outputProgram + tx.lockTime;
            && |w| == 40
            && w[0..4] == tx.input.sequence && w[4..5] == [1] && w[5..13] == tx.outputValue
            && w[13..16] == [22, 0x00, 0x14] && w[16..36] == tx.outputProgram && w[36..40] == tx.lockTime
  {
  }

  lemma ParseUnsignedSound(raw: bytes, tx: ParsedTransaction)
    requires ParseUnsigned(raw) == Ok(tx)
    ensures tx.Valid() && raw == tx.Unsigned()
  {
    var s1 := Take(raw, 4).value.rest;
    var s2 := TakeInput(s1).value.rest;
    var s3 := TakeCompactSize(s2).value.rest;
    var s4 := Take(s3, 8).value.rest;
    var s5 := TakeProgram(s4).value.rest;
    TakeInputIff(s1, tx.input, s2);
    SmallCompactSize(s2, 1, s3);
    TakeProgramIff(s4, tx.outputProgram, s5);
    assert tx.lockTime + [] == tx.lockTime;
  }

  lemma ParseUnsignedComplete(tx: ParsedTransaction)
    requires tx.Valid()
    ensures ParseUnsigned(tx.Unsigned()) == Ok(tx)
  {
    var s5 := tx.lockTime;
    var s4 := ProgramBytes(tx.outputProgram) + s5;
    var s3 := tx.outputValue + s4;
    var s2 := [1] + s3;
    var s1 := tx.input.Encoded() + s2;
    assert s5 + [] == s5;
    TakeIff(tx.Unsigned(), tx.version, s1);
    TakeInputIff(s1, tx.input, s2);
    SmallCompactSize(s2, 1, s3);
    TakeIff(s3, tx.outputValue, s4);
    TakeProgramIff(s4, tx.outputProgram, s5);
    TakeIff(s5, tx.lockTime, []);
  }

  // ----- The spent output -----

  /** `parse_witness_utxo`: the amount and witness program of the spent output. */
  function ParseWitnessUtxo(raw: bytes): Result<(bytes, bytes), Error> {
    var amount :- Take(raw, 8);
    var program :- TakeProgram(amount.rest);
    if program.rest != [] then Err(TrailingBytes) else Ok((amount.value, program.value))
  }

  lemma ParseWitnessUtxoIff(raw: bytes, amount: bytes, program: bytes)
    ensures ParseWitnessUtxo(raw) == Ok((amount, program)) <==>
            |amount| == 8 && |program| == 20 && raw == amount + ProgramBytes(program)
  {
    assert ProgramBytes(program) + [] == ProgramBytes(program);
    if ParseWitnessUtxo(raw) == Ok((amount, program)) {
      TakeProgramIff(Take(raw, 8).value.rest, program, []);
    }
    if |amount| == 8 && |program| == 20 && raw == amount + ProgramBytes(program) {
      TakeIff(raw, amount, ProgramBytes(program));
      TakeProgramIff(ProgramBytes(program), program, []);
    }
  }

  // ----- The signing preimage -----

  /** The script code of a P2WPKH input: a length and the P2PKH script. */
  function ScriptCode(program: bytes): bytes {
    [25, 0x76, 0xa9, 0x14] + program + [0x88, 0xac]
  }

  /** `build_bip143_preimage`: the ten items of BIP 143 for SIGHASH_ALL. */
  function Preimage(tx: ParsedTransaction, amount: bytes, program: bytes,
                    hashPrevouts: bytes, hashSequence: bytes, hashOutputs: bytes): bytes
  {
    tx.version + hashPrevouts + hashSequence + tx.input.Prevout() + ScriptCode(program) + amount
    + tx.input.sequence + hashOutputs + tx.lockTime + FixedLE(SIGHASH_ALL, 4)
  }

  predicate PreimageShape(tx: ParsedTransaction, amount: bytes, program: bytes,
                          hashPrevouts: bytes, hashSequence: bytes, hashOutputs: bytes)
  {
    tx.Valid() && |amount| == 8 && |program| == 20
    && |hashPrevouts| == 32 && |hashSequence| == 32 && |hashOutputs| == 32
  }

  /** The 182 bytes of the signing preimage of a P2WPKH input under SIGHASH_ALL, byte by
      byte (BIP 143, "Specification"). The script code is the counted script OP_DUP
      OP_HASH160 <program> OP_EQUALVERIFY OP_CHECKSIG. */
  predicate IsBip143(p: bytes, tx: ParsedTransaction, amount: nat, program: bytes,
                     hashPrevouts: bytes, hashSequence: bytes, hashOutputs: bytes)
  {
    && |p| == 182
    && p[..4] == tx.version && p[4..36] == hashPrevouts && p[36..68] == hashSequence
    && p[68..100] == tx.input.txid && p[100..104] == tx.input.vout
    && p[104..108] == [25, 0x76, 0xa9, 0x14] && p[108..128] == program && p[128..130] == [0x88, 0xac]
    && FromLE(p[130..138]) == amount && p[138..142] == tx.input.sequence && p[142..174] == hashOutputs
    && p[174..178] == tx.lockTime && p[178..] == [1, 0, 0, 0]
  }

  /** The preimage is the one byte string with each item of BIP 143 at its place, so
      equal preimages commit to equal items. */
  lemma PreimageIff(p: bytes, tx: ParsedTransaction, amount: nat, program: bytes,
                    hashPrevouts: bytes, hashSequence: bytes, hashOutputs: bytes)
    requires amount < Pow256(8)
    requires PreimageShape(tx, FixedLE(amount, 8), program, hashPrevouts, hashSequence, hashOutputs)
    ensures p == Preimage(tx, FixedLE(amount, 8), program, hashPrevouts, hashSequence, hashOutputs)
            <==> IsBip143(p, tx, amount, program, hashPrevouts, hashSequence, hashOutputs)
  {
    var q := Preimage(tx, FixedLE(amount, 8), program, hashPrevouts, hashSequence, hashOutputs);
    PreimagePlaces(tx, amount, program, hashPrevouts, hashSequence, hashOutputs);
    if IsBip143(p, tx, amount, program, hashPrevouts, hashSequence, hashOutputs) {
      FixedFromLE(p[130..138]);
      FixedFromLE(q[130..138]);
      assert p[178..182] == p[178..] && q[178..182] == q[178..];
      SamePlaces(p, q);
    }
  }

  lemma PreimagePlaces(tx: ParsedTransaction, amount: nat, program: bytes,
                       hashPrevouts: bytes, hashSequence: bytes, hashOutputs: bytes)
    requires amount < Pow256(8)
    requires PreimageShape(tx, FixedLE(amount, 8), program, hashPrevouts, hashSequence, hashOutputs)
    ensures IsBip143(Preimage(tx, FixedLE(amount, 8), program, hashPrevouts, hashSequence, hashOutputs),
                     tx, amount, program, hashPrevouts, hashSequence, hashOutputs)
  {
    var u := tx.version + hashPrevouts + hashSequence + tx.input.Prevout() + ScriptCode(program);
    var w := FixedLE(amount, 8) + tx.input.sequence + hashOutputs + tx.lockTime + FixedLE(SIGHASH_ALL, 4);
    var q := Preimage(tx, FixedLE(amount, 8), program, hashPrevouts, hashSequence, hashOutputs);
    assert q == u + w;
    FromFixedLE(amount, 8);
    LeadingPlaces(tx, program, hashPrevouts, hashSequence);
    TrailingPlaces(tx, amount, hashOutputs);
    LeadingSlices(u, w);
    TrailingSlices(u, w);
  }

  lemma LeadingPlaces(tx: ParsedTransaction, program: bytes, hashPrevouts: bytes, hashSequence: bytes)
    requires tx.Valid() && |program| == 20 && |hashPrevouts| == 32 && |hashSequence| == 32
    ensures var u := tx.version + hashPrevouts + hashSequence + tx.input.Prevout() + ScriptCode(program);
            && |u| == 130
            && u[..4] == tx.version && u[4..36] == hashPrevouts && u[36..68] == hashSequence
            && u[68..100] == tx.input.txid && u[100..104] == tx.input.vout
            && u[104..108] == [25, 0x76, 0xa9, 0x14] && u[108..128] == program && u[128..130] == [0x88, 0xac]
  {
    var script := ScriptCode(program);
    assert script[..4] == [25, 0x76, 0xa9, 0x14] && script[4..24] == program && script[24..26] == [0x88, 0xac];
    var u := tx.version + hashPrevouts + hashSequence + tx.input.Prevout() + script;
    assert u[104..130] == script;
    assert u[104..108] == script[..4] && u[108..128] == script[4..24] && u[128..130] == script[24..26];
  }

  lemma TrailingPlaces(tx: ParsedTransaction, amount: nat, hashOutputs: bytes)
    requires tx.Valid() && |hashOutputs| == 32
    ensures var w := FixedLE(amount, 8) + tx.input.sequence + hashOutputs + tx.lockTime + FixedLE(SIGHASH_ALL, 4);
            && |w| == 52
            && w[..8] == FixedLE(amount, 8) && w[8..12] == tx.input.sequence && w[12..44] == hashOutputs
            && w[44..48] == tx.lockTime && w[48..52] == [1, 0, 0, 0]
  {
    assert FixedLE(SIGHASH_ALL, 4) == [1, 0, 0, 0];
  }

  lemma SamePlaces(p: bytes, q: bytes)
    requires |p| == |q| == 182 && p[..4] == q[..4] && p[4..36] == q[4..36] && p[36..68] == q[36..68]
    requires p[68..100] == q[68..100] && p[100..104] == q[100..104] && p[104..108] == q[104..108]
    requires p[108..128] == q[108..128] && p[128..130] == q[128..130] && p[130..138] == q[130..138]
    requires p[138..142] == q[138..142] && p[142..174] == q[142..174] && p[174..178] == q[174..178]
    requires p[178..182] == q[178..182]
    ensures p == q
  {
    SameUpTo(p, q, 4, 36);
    SameUpTo(p, q, 36, 68);
    SameUpTo(p, q, 68, 100);
    SameUpTo(p, q, 100, 104);
    SameUpTo(p, q, 104, 108);
    SameUpTo(p, q, 108, 128);
    SameUpTo(p, q, 128, 130);
    SameUpTo(p, q, 130, 138);
    SameUpTo(p, q, 138, 142);
    SameUpTo(p, q, 142, 174);
    SameUpTo(p, q, 174, 178);
    SameUpTo(p, q, 178, 182);
    assert p[..182] == p && q[..182] == q;
  }

  lemma SameUpTo(p: bytes, q: bytes, a: nat, b: nat)
    requires a <= b <= |p| == |q| && p[..a] == q[..a] && p[a..b] == q[a..b]
    ensures p[..b] == q[..b]
  {
    assert p[..b] == p[..a] + p[a..b] && q[..b] == q[..a] + q[a..b];
  }

  // ----- The signed transaction: the part before the output script -----

  datatype Prefix = Prefix(version: bytes, input: TxInput, outputValue: bytes) {
    predicate Valid() {
      |version| == 4 && input.Valid() && |outputValue| == 8
    }

    function Encoded(): bytes {
      version + ([0x00, 0x01] + (input.Encoded() + ([1] + outputValue)))
    }
  }

  function TakePrefix(s: bytes): Result<Read<Prefix>, Error> {
    var version :- Take(s, 4);
    var marker :- TakeByte(version.rest);
    if marker.value != 0 then Err(InvalidUnsignedTransaction)
    else
      var flag :- TakeByte(marker.rest);
      if flag.value != 1 then Err(InvalidUnsignedTransaction)
      else
        var input :- TakeInput(flag.rest);
        var outputs :- TakeCompactSize(input.rest);
        if outputs.value != 1 then Err(UnsupportedOutputCount)
        else
          var value :- Take(outputs.rest, 8);
          Ok(Read(Prefix(version.value, input.value, value.value), value.rest))
  }

  lemma PrefixAppend(p: Prefix, rest: bytes)
    ensures p.Encoded() + rest
         == p.version + ([0x00, 0x01] + (p.input.Encoded() + ([1] + (p.outputValue + rest))))
  {
    Assoc3([1], p.outputValue, rest);
    Assoc3(p.input.Encoded(), [1] + p.outputValue, rest);
    Assoc3([0x00, 0x01], p.input.Encoded() + ([1] + p.outputValue), rest);
    Assoc3(p.version, [0x00, 0x01] + (p.input.Encoded() + ([1] + p.outputValue)), rest);
  }

  lemma TakePrefixSound(s: bytes, p: Prefix, rest: bytes)
    requires TakePrefix(s) == Ok(Read(p, rest))
    ensures p.Valid() && s == p.Encoded() + rest
  {
    var s1 := Take(s, 4).value.rest;
    var s2 := s1[1..][1..];
    assert s1 == [0x00, 0x01] + s2;
    var s3 := TakeInput(s2).value.rest;
    TakeInputIff(s2, p.input, s3);
    SmallCompactSize(s3, 1, TakeCompactSize(s3).value.rest);
    PrefixAppend(p, rest);
  }

  lemma TakePrefixComplete(p: Prefix, rest: bytes)
    requires p.Valid()
    ensures TakePrefix(p.Encoded() + rest) == Ok(Read(p, rest))
  {
    PrefixAppend(p, rest);
    var s4 := p.outputValue + rest;
    var s3 := [1] + s4;
    var s2 := p.input.Encoded() + s3;
    var s1 := [0x00, 0x01] + s2;
    TakeIff(p.version + s1, p.version, s1);
    assert s1[1..] == [0x01] + s2 && s1[1..][1..] == s2;
    TakeInputIff(s2, p.input, s3);
    SmallCompactSize(s3, 1, s4);
    TakeIff(s4, p.outputValue, rest);
  }

  // ----- The signed transaction: runs with a CompactSize length -----

  function Counted(v: bytes): bytes
    requires |v| <= U64_MAX
  {
    CompactSize(|v|) + v
  }

  function TakeCounted(s: bytes): Result<Read<bytes>, Error> {
    var len :- TakeCompactSize(s);
    Take(len.rest, len.value)
  }

  lemma TakeCountedIff(s: bytes, v: bytes, rest: bytes)
    ensures TakeCounted(s) == Ok(Read(v, rest)) <==> |v| <= U64_MAX && s == Counted(v) + rest
  {
    if |v| <= U64_MAX {
      Assoc3(CompactSize(|v|), v, rest);
      CompactSizeIff(s, |v|, v + rest);
      TakeFront(v, rest);
    }
    if TakeCounted(s) == Ok(Read(v, rest)) {
      CompactSizeIff(s, |v|, v + rest);
    }
  }

  // ----- The signed transaction: the two-element stack -----

  datatype P2wpkhWitness = P2wpkhWitness(compactSignature: bytes, publicKey: bytes)

  /** Drops the trailing SIGHASH_ALL byte. */
  function DropSighash(signature: bytes): (r: Result<bytes, Error>)
    ensures r.Ok? ==> signature == r.value + [1]
  {
    var n := |signature|;
    if n == 0 || signature[n - 1] != 1 then Err(UnsupportedSighash) else Ok(signature[..n - 1])
  }

  /** A DER signature with its sighash byte. */
  function TakeSignature(s: bytes): Result<Read<bytes>, Error> {
    var signature :- TakeCounted(s);
    var der :- DropSighash(signature.value);
    var compact :- DecodeDer(der);
    Ok(Read(compact, signature.rest))
  }

  function SignatureBytes(compact: bytes): bytes
    requires |compact| == 64 && EncodeDer(compact).Ok?
  {
    Counted(EncodeDer(compact).value + [1])
  }

  lemma TakeSignatureIff(s: bytes, compact: bytes, rest: bytes)
    requires |compact| == 64
    ensures TakeSignature(s) == Ok(Read(compact, rest)) <==>
            EncodeDer(compact).Ok? && s == SignatureBytes(compact) + rest
  {
    if TakeSignature(s) == Ok(Read(compact, rest)) {
      var signature := TakeCounted(s).value.value;
      TakeCountedIff(s, signature, rest);
      SignatureDecodes(signature, DropSighash(signature).value, compact);
    }
    if EncodeDer(compact).Ok? && s == SignatureBytes(compact) + rest {
      var der := EncodeDer(compact).value;
      TakeCountedIff(s, der + [1], rest);
      DerBijection(der, compact);
      assert DropSighash(der + [1]) == Ok(der);
    }
  }

  lemma SignatureDecodes(signature: bytes, der: bytes, compact: bytes)
    requires |compact| == 64 && signature == der + [1] && DecodeDer(der) == Ok(compact)
    ensures EncodeDer(compact).Ok? && signature == EncodeDer(compact).value + [1]
  {
    DerBijection(der, compact);
  }

  /** The stack: its size, the signature and the public key. */
  function TakeStack(s: bytes): Result<Read<P2wpkhWitness>, Error> {
    var items :- TakeCompactSize(s);
    if items.value != 2 then Err(InvalidSignature)
    else
      var signature :- TakeSignature(items.rest);
      var keyLen :- TakeCompactSize(signature.rest);
      if keyLen.value != 33 then Err(InvalidSignature)
      else
        var key :- Take(keyLen.rest, 33);
        Ok(Read(P2wpkhWitness(signature.value, key.value), key.rest))
  }

  predicate Encodable(stack: P2wpkhWitness) {
    |stack.compactSignature| == 64 && |stack.publicKey| == 33 && EncodeDer(stack.compactSignature).Ok?
  }

  function StackBytes(stack: P2wpkhWitness): bytes
    requires Encodable(stack)
  {
    [2] + (SignatureBytes(stack.compactSignature) + ([33] + stack.publicKey))
  }

  lemma StackAppend(stack: P2wpkhWitness, rest: bytes)
    requires Encodable(stack)
    ensures StackBytes(stack) + rest
         == [2] + (SignatureBytes(stack.compactSignature) + ([33] + (stack.publicKey + rest)))
  {
    var signature := SignatureBytes(stack.compactSignature);
    Assoc3([33], stack.publicKey, rest);
    Assoc3(signature, [33] + stack.publicKey, rest);
    Assoc3([2], signature + ([33] + stack.publicKey), rest);
  }

  lemma TakeStackIff(s: bytes, stack: P2wpkhWitness, rest: bytes)
    ensures TakeStack(s) == Ok(Read(stack, rest)) <==> Encodable(stack) && s == StackBytes(stack) + rest
  {
    if TakeStack(s) == Ok(Read(stack, rest)) {
      TakeStackSound(s, stack, rest);
    }
    if Encodable(stack) && s == StackBytes(stack) + rest {
      TakeStackComplete(stack, rest);
    }
  }

  lemma TakeStackSound(s: bytes, stack: P2wpkhWitness, rest: bytes)
    requires TakeStack(s) == Ok(Read(stack, rest))
    ensures Encodable(stack) && s == StackBytes(stack) + rest
  {
    var s1 := TakeCompactSize(s).value.rest;
    SmallCompactSize(s, 2, s1);
    var s2 := TakeSignature(s1).value.rest;
    TakeSignatureIff(s1, stack.compactSignature, s2);
    var s3 := TakeCompactSize(s2).value.rest;
    SmallCompactSize(s2, 33, s3);
    StackAppend(stack, rest);
  }

  lemma TakeStackComplete(stack: P2wpkhWitness, rest: bytes)
    requires Encodable(stack)
    ensures TakeStack(StackBytes(stack) + rest) == Ok(Read(stack, rest))
  {
    var s3 := stack.publicKey + rest;
    var s2 := [33] + s3;
    var s1 := SignatureBytes(stack.compactSignature) + s2;
    StackAppend(stack, rest);
    SmallCompactSize([2] + s1, 2, s1);
    TakeSignatureIff(s1, stack.compactSignature, s2);
    SmallCompactSize(s2, 33, s3);
    TakeIff(s3, stack.publicKey, rest);
  }

  // ----- The signed transaction -----

  /** A signed one-input, one-output SegWit transaction with any output script. */
  datatype SignedShape = SignedShape(prefix: Prefix, script: bytes, stack: P2wpkhWitness, lockTime: bytes) {
    predicate Valid() {
      prefix.Valid() && |script| <= U64_MAX && Encodable(stack) && |lockTime| == 4
    }

    function Encoded(): bytes
      requires Valid()
    {
      prefix.Encoded() + (Counted(script) + (StackBytes(stack) + lockTime))
    }
  }

  /** `extract_p2wpkh_witness`. The output script is skipped unread. */
  function ExtractWitness(raw: bytes): Result<P2wpkhWitness, Error> {
    var prefix :- TakePrefix(raw);
    var script :- TakeCounted(prefix.rest);
    var stack :- TakeStack(script.rest);
    var lockTime :- Take(stack.rest, 4);
    if lockTime.rest != [] then Err(TrailingBytes) else Ok(stack.value)
  }

  lemma ExtractComplete(t: SignedShape)
    requires t.Valid()
    ensures ExtractWitness(t.Encoded()) == Ok(t.stack)
  {
    var s2 := StackBytes(t.stack) + t.lockTime;
    var s1 := Counted(t.script) + s2;
    TakePrefixComplete(t.prefix, s1);
    TakeCountedIff(s1, t.script, s2);
    TakeStackIff(s2, t.stack, t.lockTime);
    assert t.lockTime + [] == t.lockTime;
    TakeIff(t.lockTime, t.lockTime, []);
  }

  lemma ExtractSound(raw: bytes, stack: P2wpkhWitness) returns (t: SignedShape)
    requires ExtractWitness(raw) == Ok(stack)
    ensures t.Valid() && raw == t.Encoded() && t.stack == stack
  {
    var prefix := TakePrefix(raw).value;
    TakePrefixSound(raw, prefix.value, prefix.rest);
    var script := TakeCounted(prefix.rest).value;
    TakeCountedIff(prefix.rest, script.value, script.rest);
    var lockTime := TakeStack(script.rest).value.rest;
    TakeStackIff(script.rest, stack, lockTime);
    assert lockTime + [] == lockTime;
    t := SignedShape(prefix.value, script.value, stack, lockTime);
  }

  /** The bytes are a signed transaction of some shape carrying this witness. */
  ghost predicate CarriesWitness(raw: bytes, stack: P2wpkhWitness) {
    exists t: SignedShape :: t.Valid() && raw == t.Encoded() && t.stack == stack
  }

  /** Extraction succeeds exactly on serializations with a strict DER signature and
      a 33-byte key, and returns that signature and that key. */
  lemma ExtractIff(raw: bytes, stack: P2wpkhWitness)
    ensures ExtractWitness(raw) == Ok(stack) <==> CarriesWitness(raw, stack)
  {
    if ExtractWitness(raw) == Ok(stack) {
      var t := ExtractSound(raw, stack);
    }
    if CarriesWitness(raw, stack) {
      var t: SignedShape :| t.Valid() && raw == t.Encoded() && t.stack == stack;
      ExtractComplete(t);
    }
  }

  function SignedOf(tx: ParsedTransaction, stack: P2wpkhWitness): SignedShape {
    SignedShape(Prefix(tx.version, tx.input, tx.outputValue), [0x00, 0x14] + tx.outputProgram, stack, tx.lockTime)
  }

  /** `serialize_signed_transaction`. */
  function SerializeSigned(tx: ParsedTransaction, stack: P2wpkhWitness): Result<bytes, Error>
    requires tx.Valid() && |stack.compactSignature| == 64 && |stack.publicKey| == 33
  {
    var der :- EncodeDer(stack.compactSignature);
    Ok(SignedOf(tx, stack).Encoded())
  }

  /** Extraction undoes serialization for every transaction, key and valid
      signature, and the result always fits its buffer. */
  lemma SerializeRoundTrip(tx: ParsedTransaction, stack: P2wpkhWitness)
    requires tx.Valid() && |stack.compactSignature| == 64 && |stack.publicKey| == 33
    requires ValidateCompact(stack.compactSignature).Ok?
    ensures SerializeSigned(tx, stack).Ok?
    ensures |SerializeSigned(tx, stack).value| <= MAX_SIGNED_TX_BYTES
    ensures ExtractWitness(SerializeSigned(tx, stack).value) == Ok(stack)
  {
    ExtractComplete(SignedOf(tx, stack));
  }

  /** The signed serialization, item by item (BIP 144, "Serialization"): the marker and
      flag, one input, one output, the two-element stack of signature and key. */
  lemma SignedItems(tx: ParsedTransaction, stack: P2wpkhWitness)
    requires tx.Valid() && Encodable(stack)
    ensures var der := EncodeDer(stack.compactSignature).value;
            SerializeSigned(tx, stack)
            == Ok((tx.version + [0x00, 0x01])
                  + ([1] + tx.input.txid + tx.input.vout + [0] + tx.input.sequence)
                  + ([1] + tx.outputValue + [22, 0x00, 0x14] + tx.outputProgram)
                  + ([2] + [|der| + 1] + der + [1] + [33] + stack.publicKey)
                  + tx.lockTime)
  {
    var der := EncodeDer(stack.compactSignature).value;
    var a, b := tx.version + [0x00, 0x01], [1] + tx.input.txid + tx.input.vout + [0] + tx.input.sequence;
    var c := [1] + tx.outputValue + [22, 0x00, 0x14] + tx.outputProgram;
    var d := [2] + [|der| + 1] + der + [1] + [33] + stack.publicKey;
    OutputItems(tx);
    StackItems(stack);
    assert tx.input.Encoded() == b;
    var t := SignedOf(tx, stack);
    assert t.Encoded() == a + (b + ([1] + tx.outputValue)) + (Counted(t.script) + (StackBytes(stack) + tx.lockTime));
    assert c == [1] + tx.outputValue + Counted(t.script);
    Regroup(a, b, [1] + tx.outputValue, Counted(t.script), d, tx.lockTime);
  }

  lemma Regroup(a: bytes, b: bytes, v: bytes, s: bytes, d: bytes, e: bytes)
    ensures a + (b + v) + (s + (d + e)) == a + b + (v + s) + d + e
  {
  }

  lemma OutputItems(tx: ParsedTransaction)
    requires tx.Valid()
    ensures Counted([0x00, 0x14] + tx.outputProgram) == [22, 0x00, 0x14] + tx.outputProgram
  {
  }

  lemma StackItems(stack: P2wpkhWitness)
    requires Encodable(stack)
    ensures var der := EncodeDer(stack.compactSignature).value;
            StackBytes(stack) == [2] + [|der| + 1] + der + [1] + [33] + stack.publicKey
  {
    var der := EncodeDer(stack.compactSignature).value;
    assert SignatureBytes(stack.compactSignature) == [|der| + 1] + (der + [1]);
  }

  /** Some supported transaction serializes to these bytes. */
  ghost predicate Supported(raw: bytes, stack: P2wpkhWitness)
    requires Encodable(stack)
  {
    exists tx: ParsedTransaction :: tx.Valid() && SerializeSigned(tx, stack) == Ok(raw)
  }

  /** The documentation says extraction demands the exact supported shape. It does
      not: every output script is skipped over, so what is extracted came from a
      supported transaction exactly when the script is a 20-byte witness program. */
  lemma ExtractedIsSupportedIff(t: SignedShape)
    requires t.Valid()
    ensures ExtractWitness(t.Encoded()) == Ok(t.stack)
    ensures Supported(t.Encoded(), t.stack) <==> |t.script| == 22 && t.script[..2] == [0x00, 0x14]
  {
    ExtractComplete(t);
    if |t.script| == 22 && t.script[..2] == [0x00, 0x14] {
      ProgramIsSupported(t);
    }
    if Supported(t.Encoded(), t.stack) {
      var tx: ParsedTransaction :| tx.Valid() && SerializeSigned(tx, t.stack) == Ok(t.Encoded());
      ScriptIsDetermined(SignedOf(tx, t.stack), t);
    }
  }

  /** Such an input: a signed transaction that pays to the empty script. */
  lemma EmptyScriptIsExtracted() returns (t: SignedShape)
    ensures t.Valid() && t.script == [] && ExtractWitness(t.Encoded()) == Ok(t.stack) && !Supported(t.Encoded(), t.stack)
  {
    var half, compact := Zeros(31) + [1], Zeros(31) + [1] + (Zeros(31) + [1]);
    assert compact[..32] == half && compact[32..] == half && half[31] == 1;
    assert half[0] == 0 && !Greater(half, SECP256K1_HALF_ORDER);
    assert ValidateCompact(compact).Ok?;
    var input := TxInput(Zeros(32), Zeros(4), Zeros(4));
    t := SignedShape(Prefix(Zeros(4), input, Zeros(8)), [], P2wpkhWitness(compact, Zeros(33)), Zeros(4));
    ExtractedIsSupportedIff(t);
  }

  lemma ProgramIsSupported(t: SignedShape)
    requires t.Valid() && |t.script| == 22 && t.script[..2] == [0x00, 0x14]
    ensures Supported(t.Encoded(), t.stack)
  {
    var tx := ParsedTransaction(t.prefix.version, t.prefix.input, t.prefix.outputValue, t.script[2..], t.lockTime);
    assert t.script == [0x00, 0x14] + t.script[2..];
    assert SignedOf(tx, t.stack) == t;
    assert SerializeSigned(tx, t.stack) == Ok(t.Encoded());
  }

  lemma ScriptIsDetermined(a: SignedShape, b: SignedShape)
    requires a.Valid() && b.Valid() && a.Encoded() == b.Encoded()
    ensures a.script == b.script
  {
    var ra := StackBytes(a.stack) + a.lockTime;
    var rb := StackBytes(b.stack) + b.lockTime;
    TakePrefixComplete(a.prefix, Counted(a.script) + ra);
    TakePrefixComplete(b.prefix, Counted(b.script) + rb);
    TakeCountedIff(Counted(a.script) + ra, a.script, ra);
    TakeCountedIff(Counted(b.script) + rb, b.script, rb);
  }
}
