/** The one-signer System Program transfer message. */
module SolanaTransfer {
  import opened Bytes
  import opened ChainApi
  import opened CryptoVocabulary
  import opened SolanaWire

  const MAX_MESSAGE_BYTES: nat := 512
  const SYSTEM_PROGRAM: bytes := Zeros(32)
  const SYSTEM_TRANSFER_INSTRUCTION: nat := 2

  datatype Transfer = Transfer(signer: bytes, recipient: bytes, recentBlockhash: bytes, lamports: nat) {
    predicate Valid() {
      |signer| == 32 && |recipient| == 32 && |recentBlockhash| == 32 && lamports < Pow256(8)
    }

    /** Three accounts and the recent blockhash. */
    function Accounts(): bytes {
      signer + (recipient + (SYSTEM_PROGRAM + recentBlockhash))
    }

    /** One instruction for account 2 over accounts 0 and 1, with 12 bytes of data. */
    function Instruction(): bytes {
      [1, 2, 2, 0, 1, 12] + (FixedLE(SYSTEM_TRANSFER_INSTRUCTION, 4) + FixedLE(lamports, 8))
    }

    /** The one message of this transfer. */
    function Message(): bytes {
      [1, 0, 1, 3] + (Accounts() + Instruction())
    }
  }

  datatype TransferReview = TransferReview(key: KeyTarget, transfer: Transfer, message: bytes)

  // ----- The parts of a message -----

  /** The header and the account count. */
  function TakeHeader(s: bytes): Result<Read<Unit>, Error> {
    var signers :- TakeByte(s);
    if signers.value != 1 then Err(UnsupportedHeader)
    else
      var readonlySigners :- TakeByte(signers.rest);
      if readonlySigners.value != 0 then Err(UnsupportedHeader)
      else
        var readonly :- TakeByte(readonlySigners.rest);
        if readonly.value != 1 then Err(UnsupportedHeader)
        else
          var accounts :- TakeShortVec(readonly.rest);
          if accounts.value != 3 then Err(UnsupportedAccounts) else Ok(Read(Unit, accounts.rest))
  }

  lemma TakeHeaderIff(s: bytes, rest: bytes)
    ensures TakeHeader(s) == Ok(Read(Unit, rest)) <==> s == [1, 0, 1, 3] + rest
  {
    if TakeHeader(s) == Ok(Read(Unit, rest)) {
      HeaderSound(s, rest);
    }
    var s3 := [3] + rest;
    var s2 := [1] + s3;
    var s1 := [0] + s2;
    assert [1, 0, 1, 3] + rest == [1] + s1;
    if s == [1, 0, 1, 3] + rest {
      TakeByteIff(s, 1, s1);
      TakeByteIff(s1, 0, s2);
      TakeByteIff(s2, 1, s3);
      SmallShortVec(s3, 3, rest);
    }
  }

  lemma HeaderSound(s: bytes, rest: bytes)
    requires TakeHeader(s) == Ok(Read(Unit, rest))
    ensures s == [1, 0, 1, 3] + rest
  {
    var s1 := TakeByte(s).value.rest;
    TakeByteIff(s, 1, s1);
    var s2 := TakeByte(s1).value.rest;
    TakeByteIff(s1, 0, s2);
    var s3 := TakeByte(s2).value.rest;
    TakeByteIff(s2, 1, s3);
    SmallShortVec(s3, 3, rest);
  }

  /** The signer, the recipient and the recent blockhash. */
  function TakeAccounts(s: bytes): Result<Read<(bytes, bytes, bytes)>, Error> {
    var signer :- Take(s, 32);
    var recipient :- Take(signer.rest, 32);
    var program :- Take(recipient.rest, 32);
    if program.value != SYSTEM_PROGRAM then Err(UnsupportedProgram)
    else
      var recentBlockhash :- Take(program.rest, 32);
      Ok(Read((signer.value, recipient.value, recentBlockhash.value), recentBlockhash.rest))
  }

  lemma TakeAccountsIff(s: bytes, a: bytes, b: bytes, d: bytes, rest: bytes)
    ensures TakeAccounts(s) == Ok(Read((a, b, d), rest)) <==>
            |a| == 32 && |b| == 32 && |d| == 32 && s == a + (b + (SYSTEM_PROGRAM + d)) + rest
  {
    var s3 := d + rest;
    var s2 := SYSTEM_PROGRAM + s3;
    var s1 := b + s2;
    assert a + (b + (SYSTEM_PROGRAM + d)) + rest == a + s1 by {
      Assoc3(SYSTEM_PROGRAM, d, rest);
      Assoc3(b, SYSTEM_PROGRAM + d, rest);
      Assoc3(a, b + (SYSTEM_PROGRAM + d), rest);
    }
    if |a| == 32 && |b| == 32 && |d| == 32 {
      TakeIff(s, a, s1);
      TakeIff(s1, b, s2);
      TakeIff(s2, SYSTEM_PROGRAM, s3);
      TakeIff(s3, d, rest);
    }
    if TakeAccounts(s) == Ok(Read((a, b, d), rest)) {
      AccountsSound(s, a, b, d, rest);
    }
  }

  lemma AccountsSound(s: bytes, a: bytes, b: bytes, d: bytes, rest: bytes)
    requires TakeAccounts(s) == Ok(Read((a, b, d), rest))
    ensures |a| == 32 && |b| == 32 && |d| == 32 && s == a + (b + (SYSTEM_PROGRAM + (d + rest)))
  {
    var s1 := s[32..];
    var s2 := s1[32..];
    var s3 := s2[32..];
    TakeIff(s, a, s1);
    TakeIff(s1, b, s2);
    TakeIff(s2, SYSTEM_PROGRAM, s3);
    TakeIff(s3, d, rest);
  }

  /** The instruction's program and account indices and its data length. */
  function TakeShape(s: bytes): Result<Read<Unit>, Error> {
    var instructions :- TakeShortVec(s);
    if instructions.value != 1 then Err(UnsupportedInstruction)
    else
      var program :- TakeByte(instructions.rest);
      if program.value != 2 then Err(UnsupportedProgram)
      else
        var accounts :- TakeShortVec(program.rest);
        if accounts.value != 2 then Err(UnsupportedInstruction)
        else
          var from :- TakeByte(accounts.rest);
          if from.value != 0 then Err(UnsupportedInstruction)
          else
            var to :- TakeByte(from.rest);
            if to.value != 1 then Err(UnsupportedInstruction)
            else
              var length :- TakeShortVec(to.rest);
              if length.value != 12 then Err(UnsupportedInstruction) else Ok(Read(Unit, length.rest))
  }

  lemma TakeShapeIff(s: bytes, rest: bytes)
    ensures TakeShape(s) == Ok(Read(Unit, rest)) <==> s == [1, 2, 2, 0, 1, 12] + rest
  {
    if TakeShape(s) == Ok(Read(Unit, rest)) {
      ShapeSound(s, rest);
    }
    if s == [1, 2, 2, 0, 1, 12] + rest {
      var s5 := [12] + rest;
      var s2 := [2] + ([0] + ([1] + s5));
      var s1 := [2] + s2;
      assert s == [1] + s1;
      SmallShortVec(s, 1, s1);
      TakeByteIff(s1, 2, s2);
      SmallShortVec(s2, 2, [0] + ([1] + s5));
      TakeByteIff([0] + ([1] + s5), 0, [1] + s5);
      TakeByteIff([1] + s5, 1, s5);
      SmallShortVec(s5, 12, rest);
    }
  }

  lemma ShapeSound(s: bytes, rest: bytes)
    requires TakeShape(s) == Ok(Read(Unit, rest))
    ensures s == [1, 2, 2, 0, 1, 12] + rest
  {
    var s1 := TakeShortVec(s).value.rest;
    SmallShortVec(s, 1, s1);
    var s2 := TakeByte(s1).value.rest;
    TakeByteIff(s1, 2, s2);
    var s3 := TakeShortVec(s2).value.rest;
    SmallShortVec(s2, 2, s3);
    var s4 := TakeByte(s3).value.rest;
    TakeByteIff(s3, 0, s4);
    var s5 := TakeByte(s4).value.rest;
    TakeByteIff(s4, 1, s5);
    SmallShortVec(s5, 12, rest);
  }

  /** The instruction up to the end of the message: the lamports. */
  function TakeInstruction(s: bytes): Result<nat, Error> {
    var shape :- TakeShape(s);
    var instruction :- Take(shape.rest, 4);
    if FromLE(instruction.value) != SYSTEM_TRANSFER_INSTRUCTION then Err(UnsupportedInstruction)
    else
      var lamports :- Take(instruction.rest, 8);
      if lamports.rest != [] then Err(TrailingBytes) else Ok(FromLE(lamports.value))
  }

  lemma TakeInstructionIff(s: bytes, lamports: nat)
    ensures TakeInstruction(s) == Ok(lamports) <==>
            lamports < Pow256(8)
            && s == [1, 2, 2, 0, 1, 12] + (FixedLE(SYSTEM_TRANSFER_INSTRUCTION, 4) + FixedLE(lamports, 8))
  {
    if TakeInstruction(s) == Ok(lamports) {
      InstructionSound(s, lamports);
    }
    if lamports < Pow256(8)
        && s == [1, 2, 2, 0, 1, 12] + (FixedLE(SYSTEM_TRANSFER_INSTRUCTION, 4) + FixedLE(lamports, 8)) {
      InstructionComplete(lamports);
    }
  }

  lemma InstructionSound(s: bytes, lamports: nat)
    requires TakeInstruction(s) == Ok(lamports)
    ensures lamports < Pow256(8)
    ensures s == [1, 2, 2, 0, 1, 12] + (FixedLE(SYSTEM_TRANSFER_INSTRUCTION, 4) + FixedLE(lamports, 8))
  {
    var s1 := TakeShape(s).value.rest;
    TakeShapeIff(s, s1);
    var code, digits := s1[..4], s1[4..];
    FixedFromLE(code);
    FixedFromLE(digits);
    assert digits[..8] == digits && s1 == code + digits;
  }

  lemma InstructionComplete(lamports: nat)
    requires lamports < Pow256(8)
    ensures TakeInstruction([1, 2, 2, 0, 1, 12] + (FixedLE(SYSTEM_TRANSFER_INSTRUCTION, 4) + FixedLE(lamports,
        8))) == Ok(lamports)
  {
    var code, digits := FixedLE(SYSTEM_TRANSFER_INSTRUCTION, 4), FixedLE(lamports, 8);
    TakeShapeIff([1, 2, 2, 0, 1, 12] + (code + digits), code + digits);
    TakeIff(code + digits, code, digits);
    assert digits + [] == digits;
    TakeIff(digits, digits, []);
    Pow256Eight();
    FromFixedLE(SYSTEM_TRANSFER_INSTRUCTION, 4);
    FromFixedLE(lamports, 8);
  }

  // ----- The message -----

  /** `parse_system_transfer`. */
  function ParseTransfer(key: KeyTarget, message: bytes): Result<TransferReview, Error> {
    var header :- TakeHeader(message);
    var accounts :- TakeAccounts(header.rest);
    var lamports :- TakeInstruction(accounts.rest);
    Ok(TransferReview(key, Transfer(accounts.value.0, accounts.value.1, accounts.value.2, lamports), message))
  }

  /** A message is accepted with a review exactly when it is the one message of the
      transfer the review shows. */
  lemma ParseTransferIff(key: KeyTarget, message: bytes, review: TransferReview)
    ensures ParseTransfer(key, message) == Ok(review) <==>
            review.transfer.Valid() && message == review.transfer.Message()
            && review.key == key && review.message == message
  {
    var t := review.transfer;
    var s1 := t.Accounts() + t.Instruction();
    if ParseTransfer(key, message) == Ok(review) {
      var h := TakeHeader(message).value.rest;
      TakeHeaderIff(message, h);
      var r := TakeAccounts(h).value.rest;
      TakeAccountsIff(h, t.signer, t.recipient, t.recentBlockhash, r);
      TakeInstructionIff(r, t.lamports);
    }
    if t.Valid() && message == t.Message() {
      TakeHeaderIff(message, s1);
      TakeAccountsIff(s1, t.signer, t.recipient, t.recentBlockhash, t.Instruction());
      TakeInstructionIff(t.Instruction(), t.lamports);
    }
  }

  /** The message, byte by byte: one signature and one read-only account among three, the
      system program (32 zeros) as the third, the blockhash, and one instruction of that
      program over the first two accounts, with the transfer code 2 and the amount. */
  lemma MessagePlaces(t: Transfer)
    requires t.Valid()
    ensures var m := t.Message();
            && |m| == 150
            && m[..4] == [1, 0, 1, 3] && m[4..36] == t.signer && m[36..68] == t.recipient
            && (forall i :: 68 <= i < 100 ==> m[i] == 0) && m[100..132] == t.recentBlockhash
            && m[132..142] == [1, 2, 2, 0, 1, 12, 2, 0, 0, 0] && FromLE(m[142..]) == t.lamports
  {
    var code := FixedLE(SYSTEM_TRANSFER_INSTRUCTION, 4);
    assert code == [2, 0, 0, 0];
    FromFixedLE(t.lamports, 8);
    assert t.Message()[142..] == FixedLE(t.lamports, 8);
    assert t.Message()[68..100] == SYSTEM_PROGRAM;
  }

  /** Every transfer has an accepted message, and the review shows it back. */
  lemma MessageIsAccepted(key: KeyTarget, t: Transfer)
    requires t.Valid()
    ensures |t.Message()| == 150 <= MAX_MESSAGE_BYTES
    ensures ParseTransfer(key, t.Message()) == Ok(TransferReview(key, t, t.Message()))
  {
    ParseTransferIff(key, t.Message(), TransferReview(key, t, t.Message()));
  }

  /** What is shown determines the bytes. */
  lemma ShownDeterminesMessage(key: KeyTarget, a: bytes, b: bytes)
    requires ParseTransfer(key, a).Ok? && ParseTransfer(key, b).Ok?
    requires ParseTransfer(key, a).value.transfer == ParseTransfer(key, b).value.transfer
    ensures a == b
  {
    ParseTransferIff(key, a, ParseTransfer(key, a).value);
    ParseTransferIff(key, b, ParseTransfer(key, b).value);
  }

  // ----- The adapter's procedures -----

  method PutShortVec(output: BoundedBytes, value: nat)
    requires output.Valid() && value < 0x80 && output.len + 1 <= output.data.Length
    modifies output`len, output.data
    ensures output.Valid() && output.len == old(output.len) + 1
    ensures output.AsSlice() == old(output.AsSlice()) + [value]
  {
    var pushed := PushShortVec(output, value);
    assert pushed.Ok?;
  }

  method PutAccounts(output: BoundedBytes, t: Transfer)
    requires output.Valid() && t.Valid() && output.len == 4 && output.data.Length == MAX_MESSAGE_BYTES
    modifies output`len, output.data
    ensures output.Valid() && output.len == 132
    ensures output.AsSlice() == old(output.AsSlice()) + t.Accounts()
  {
    ghost var before := output.AsSlice();
    Put(output, t.signer);
    Put(output, t.recipient);
    Put(output, SYSTEM_PROGRAM);
    Put(output, t.recentBlockhash);
    Assoc4(t.signer, t.recipient, SYSTEM_PROGRAM, t.recentBlockhash);
    Assoc3(t.recipient, SYSTEM_PROGRAM, t.recentBlockhash);
    Assoc4(before + t.signer, t.recipient, SYSTEM_PROGRAM, t.recentBlockhash);
    Assoc3(before, t.signer, t.recipient + SYSTEM_PROGRAM + t.recentBlockhash);
  }

  method PutShape(output: BoundedBytes)
    requires output.Valid() && output.len == 132 && output.data.Length == MAX_MESSAGE_BYTES
    modifies output`len, output.data
    ensures output.Valid() && output.len == 138
    ensures output.AsSlice() == old(output.AsSlice()) + [1, 2, 2, 0, 1, 12]
  {
    ghost var before := output.AsSlice();
    PutShortVec(output, 1);
    Put(output, [2]);
    PutShortVec(output, 2);
    Put(output, [0, 1]);
    PutShortVec(output, 12);
    assert output.AsSlice() == before + ([1] + [2] + [2] + [0, 1] + [12]);
    assert [1] + [2] + [2] + [0, 1] + [12] == [1, 2, 2, 0, 1, 12];
  }

  method PutInstruction(output: BoundedBytes, t: Transfer)
    requires output.Valid() && t.Valid() && output.len == 132 && output.data.Length == MAX_MESSAGE_BYTES
    modifies output`len, output.data
    ensures output.Valid()
    ensures output.AsSlice() == old(output.AsSlice()) + t.Instruction()
  {
    ghost var before, shape := output.AsSlice(), [1, 2, 2, 0, 1, 12];
    ghost var code, digits := FixedLE(SYSTEM_TRANSFER_INSTRUCTION, 4), FixedLE(t.lamports, 8);
    PutShape(output);
    Put(output, FixedLE(SYSTEM_TRANSFER_INSTRUCTION, 4));
    Put(output, FixedLE(t.lamports, 8));
    Assoc3(before + shape, code, digits);
    Assoc3(before, shape, code + digits);
  }

  /** `encode_system_transfer`; the message always fits its buffer. */
  method EncodeSystemTransfer(t: Transfer) returns (r: Result<BoundedBytes, Error>)
    requires t.Valid()
    ensures r.Ok? && fresh(r.value) && fresh(r.value.data) && r.value.Valid()
    ensures r.value.AsSlice() == t.Message()
  {
    var output := new BoundedBytes(MAX_MESSAGE_BYTES);
    Put(output, [1, 0, 1]);
    PutShortVec(output, 3);
    assert output.AsSlice() == [1, 0, 1, 3];
    PutAccounts(output, t);
    PutInstruction(output, t);
    Assoc3([1, 0, 1, 3], t.Accounts(), t.Instruction());
    return Ok(output);
  }

  method ReadHeader(cursor: Cursor) returns (r: Result<Unit, Error>)
    requires cursor.Valid()
    modifies cursor
    ensures cursor.Valid() && cursor.Advanced(TakeHeader(old(cursor.Rest())), r)
  {
    var signers :- cursor.ReadU8();
    if signers != 1 {
      return Err(UnsupportedHeader);
    }
    var readonlySigners :- cursor.ReadU8();
    if readonlySigners != 0 {
      return Err(UnsupportedHeader);
    }
    var readonly :- cursor.ReadU8();
    if readonly != 1 {
      return Err(UnsupportedHeader);
    }
    var accounts :- cursor.ReadShortVec();
    if accounts != 3 {
      return Err(UnsupportedAccounts);
    }
    return Ok(Unit);
  }

  method ReadAccounts(cursor: Cursor) returns (r: Result<(bytes, bytes, bytes), Error>)
    requires cursor.Valid()
    modifies cursor
    ensures cursor.Valid() && cursor.Advanced(TakeAccounts(old(cursor.Rest())), r)
  {
    var signer :- cursor.ReadArray(32);
    var recipient :- cursor.ReadArray(32);
    var program :- cursor.ReadArray(32);
    if program != SYSTEM_PROGRAM {
      return Err(UnsupportedProgram);
    }
    var recentBlockhash :- cursor.ReadArray(32);
    return Ok((signer, recipient, recentBlockhash));
  }

  method ReadShape(cursor: Cursor) returns (r: Result<Unit, Error>)
    requires cursor.Valid()
    modifies cursor
    ensures cursor.Valid() && cursor.Advanced(TakeShape(old(cursor.Rest())), r)
  {
    var instructions :- cursor.ReadShortVec();
    if instructions != 1 {
      return Err(UnsupportedInstruction);
    }
    var program :- cursor.ReadU8();
    if program != 2 {
      return Err(UnsupportedProgram);
    }
    var accounts :- cursor.ReadShortVec();
    if accounts != 2 {
      return Err(UnsupportedInstruction);
    }
    var from :- cursor.ReadU8();
    if from != 0 {
      return Err(UnsupportedInstruction);
    }
    var to :- cursor.ReadU8();
    if to != 1 {
      return Err(UnsupportedInstruction);
    }
    var length :- cursor.ReadShortVec();
    if length != 12 {
      return Err(UnsupportedInstruction);
    }
    return Ok(Unit);
  }

  /** `parse_system_transfer`. */
  method ParseSystemTransfer(key: KeyTarget, message: BoundedBytes) returns (r: Result<TransferReview, Error>)
    requires message.Valid()
    ensures r == ParseTransfer(key, message.AsSlice())
  {
    var cursor := new Cursor(message.AsSlice());
    var _ :- ReadHeader(cursor);
    var accounts :- ReadAccounts(cursor);
    var _ :- ReadShape(cursor);
    var instruction :- cursor.ReadArray(4);
    if FromLE(instruction) != SYSTEM_TRANSFER_INSTRUCTION {
      return Err(UnsupportedInstruction);
    }
    var lamports :- cursor.ReadArray(8);
    var finished := cursor.IsFinished();
    if !finished {
      return Err(TrailingBytes);
    }
    var transfer := Transfer(accounts.0, accounts.1, accounts.2, FromLE(lamports));
    return Ok(TransferReview(key, transfer, message.AsSlice()));
  }
}
