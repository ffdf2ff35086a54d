/** The Ethereum adapter in the form the firmware runs it: parsing loops, emitters
    that write into fixed buffers, and the execution machine. */
module EthereumAdapter {
  import opened Bytes
  import opened ChainApi
  import opened Rlp
  import opened Eip1559
  import opened Eip1559Signing
  import opened CryptoVocabulary

  // ----- Parsing -----

  /** `parse_long_item`, with its checked length accumulation. */
  method ParseLongItem(input: bytes, lengthOfLength: nat, isList: bool) returns (r: Result<(Item, nat), Error>)
    requires |input| <= USIZE_MAX && lengthOfLength <= 8
    ensures r == ParseLong(input, lengthOfLength, isList)
  {
    var headerEnd := 1 + lengthOfLength;
    if |input| < headerEnd || lengthOfLength == 0 || input[1] == 0 {
      return Err(NonCanonicalRlp);
    }
    var len := 0;
    for i := 1 to headerEnd
      invariant len == FromBE(input[1..i])
    {
      assert input[1..i + 1][..i - 1] == input[1..i];
      FromBEBound(input[1..i + 1]);
      Pow256Eight();
      Pow256Monotone(i, 8);
      var scaled := len * 256;
      if scaled > USIZE_MAX {
        return Err(InvalidRlp);
      }
      var sum := scaled + input[i];
      if sum > USIZE_MAX {
        return Err(InvalidRlp);
      }
      len := sum;
    }
    if len < 56 {
      return Err(NonCanonicalRlp);
    }
    var end := headerEnd + len;
    if end > USIZE_MAX || |input| < end {
      return Err(InvalidRlp);
    }
    return Ok((Item(input[..end], input[headerEnd..end], isList), end));
  }

  method ParseRlpItem(input: bytes) returns (r: Result<(Item, nat), Error>)
    requires |input| <= USIZE_MAX
    ensures r == ParseItem(input)
  {
    if |input| == 0 {
      return Err(InvalidRlp);
    }
    var prefix := input[0];
    if prefix <= 0x7f {
      return Ok((Item(input[..1], input[..1], false), 1));
    } else if prefix <= 0xb7 {
      var len := prefix - 0x80;
      var end := 1 + len;
      if |input| < end {
        return Err(InvalidRlp);
      }
      var payload := input[1..end];
      if len == 1 && payload[0] < 0x80 {
        return Err(NonCanonicalRlp);
      }
      return Ok((Item(input[..end], payload, false), end));
    } else if prefix <= 0xbf {
      r := ParseLongItem(input, prefix - 0xb7, false);
    } else if prefix <= 0xf7 {
      var end := 1 + (prefix - 0xc0);
      if |input| < end {
        return Err(InvalidRlp);
      }
      return Ok((Item(input[..end], input[1..end], true), end));
    } else {
      r := ParseLongItem(input, prefix - 0xf7, true);
    }
  }

  /** The field loop from a point where `fields` are already read. */
  ghost function TileFrom(rest: bytes, count: nat, fields: seq<Item>): Result<seq<Item>, Error>
    requires |rest| <= USIZE_MAX
    decreases |rest|
  {
    if rest == [] then
      if |fields| == count then Ok(fields) else Err(WrongFieldCount)
    else if |fields| == count then Err(WrongFieldCount)
    else
      ParsedIsCanonical(rest);
      var (item, used) :- ParseItem(rest);
      TileFrom(rest[used..], count, fields + [item])
  }

  lemma {:induction false} TileFromIsTile(rest: bytes, count: nat, fields: seq<Item>)
    requires |rest| <= USIZE_MAX && |fields| <= count
    ensures TileFrom(rest, count, fields)
         == match Tile(rest, count - |fields|)
            case Ok(items) => Ok(fields + items)
            case Err(e) => Err(e)
    decreases |rest|
  {
    if rest == [] {
      assert fields + [] == fields;
    } else if |fields| < count && ParseItem(rest).Ok? {
      ParsedIsCanonical(rest);
      var (item, used) := ParseItem(rest).value;
      TileFromIsTile(rest[used..], count, fields + [item]);
      var tail := Tile(rest[used..], count - |fields| - 1);
      if tail.Ok? {
        Assoc3(fields, [item], tail.value);
      }
    }
  }

  lemma TileFromStart(rest: bytes, count: nat)
    requires |rest| <= USIZE_MAX
    ensures TileFrom(rest, count, []) == Tile(rest, count)
  {
    TileFromIsTile(rest, count, []);
    if Tile(rest, count).Ok? {
      assert [] + Tile(rest, count).value == Tile(rest, count).value;
    }
  }

  method ParseTypedList(raw: bytes, count: nat) returns (r: Result<seq<Item>, Error>)
    requires |raw| <= USIZE_MAX
    ensures r == TypedList(raw, count)
  {
    if |raw| == 0 || raw[0] != ENVELOPE_TYPE {
      return Err(InvalidEnvelope);
    }
    var first :- ParseRlpItem(raw[1..]);
    var (top, consumed) := first;
    if !top.isList || consumed + 1 != |raw| {
      return Err(InvalidEnvelope);
    }
    ParsedIsCanonical(raw[1..]);
    r := TileFields(top.payload, count);
  }

  /** The field loop of `parse_typed_list`. */
  method TileFields(payload: bytes, count: nat) returns (r: Result<seq<Item>, Error>)
    requires |payload| <= USIZE_MAX
    ensures r == Tile(payload, count)
  {
    var rest := payload;
    var fields: seq<Item> := [];
    while rest != []
      invariant |rest| <= USIZE_MAX && |fields| <= count
      invariant TileFrom(payload, count, []) == TileFrom(rest, count, fields)
      decreases |rest|
    {
      if |fields| == count {
        TileFromStart(payload, count);
        return Err(WrongFieldCount);
      }
      ParsedIsCanonical(rest);
      var next := ParseRlpItem(rest);
      if next.Err? {
        TileFromStart(payload, count);
        return Err(next.error);
      }
      fields, rest := fields + [next.value.0], rest[next.value.1..];
    }
    TileFromStart(payload, count);
    if |fields| != count {
      return Err(WrongFieldCount);
    }
    return Ok(fields);
  }

  // ----- Emitting -----

  /** An emitter appends its whole encoding, or reports that it does not fit after
      writing at most a part of it. */
  ghost predicate Written(before: bytes, after: bytes, encoding: bytes, capacity: nat, r: Result<Unit, Error>) {
    if |before| + |encoding| <= capacity then r == Ok(Unit) && after == before + encoding
    else r == Err(CapacityExceeded) && before <= after <= before + encoding
  }

  method RlpPushLength(output: BoundedBytes, shortBase: byte, longBase: byte, len: nat) returns (r: Result<Unit, Error>)
    requires output.Valid() && shortBase <= 0xc0 && longBase <= 0xf7 && len <= USIZE_MAX
    modifies output`len, output.data
    ensures output.Valid()
    ensures Written(old(output.AsSlice()), output.AsSlice(), LengthPrefix(shortBase, longBase, len),
        output.data.Length, r)
  {
    if len < 56 {
      r := output.Push(shortBase + len, CapacityExceeded);
      return;
    }
    var lengthBytes := Strip(FixedBE(len, 8));
    assert lengthBytes == LengthDigits(len) by {
      Pow256Eight();
      FromFixedBE(len, 8);
      StripIsMinimal(FixedBE(len, 8));
    }
    var before := output.AsSlice();
    var head: bytes := [longBase + |lengthBytes|];
    Assoc3(before, head, lengthBytes);
    var _ :- output.Push(longBase + |lengthBytes|, CapacityExceeded);
    r := output.ExtendFromSlice(lengthBytes, CapacityExceeded);
  }

  method RlpPushListPrefix(output: BoundedBytes, len: nat) returns (r: Result<Unit, Error>)
    requires output.Valid() && len <= USIZE_MAX
    modifies output`len, output.data
    ensures output.Valid()
    ensures Written(old(output.AsSlice()), output.AsSlice(), LengthPrefix(0xc0, 0xf7, len), output.data.Length, r)
  {
    r := RlpPushLength(output, 0xc0, 0xf7, len);
  }

  method RlpPushBytes(output: BoundedBytes, value: bytes) returns (r: Result<Unit, Error>)
    requires output.Valid() && |value| <= USIZE_MAX
    modifies output`len, output.data
    ensures output.Valid()
    ensures Written(old(output.AsSlice()), output.AsSlice(), EncodeBytes(value), output.data.Length, r)
  {
    if |value| == 1 && value[0] < 0x80 {
      var _ :- output.Push(value[0], CapacityExceeded);
      assert value == [value[0]];
      return Ok(Unit);
    }
    var before, prefix := output.AsSlice(), LengthPrefix(0x80, 0xb7, |value|);
    Assoc3(before, prefix, value);
    var _ :- RlpPushLength(output, 0x80, 0xb7, |value|);
    r := output.ExtendFromSlice(value, CapacityExceeded);
  }

  method RlpPushU64(output: BoundedBytes, value: u64) returns (r: Result<Unit, Error>)
    requires output.Valid()
    modifies output`len, output.data
    ensures output.Valid()
    ensures |MinimalBE(value)| <= 8
    ensures Written(old(output.AsSlice()), output.AsSlice(), EncodeBytes(MinimalBE(value)), output.data.Length, r)
  {
    Pow256Eight();
    MinimalBELength(value, 8);
    if value == 0 {
      r := RlpPushBytes(output, []);
      return;
    }
    FromFixedBE(value, 8);
    StripIsMinimal(FixedBE(value, 8));
    r := RlpPushBytes(output, Strip(FixedBE(value, 8)));
  }

  method RlpPushIntegerBytes(output: BoundedBytes, value: bytes) returns (r: Result<Unit, Error>)
    requires output.Valid() && |value| <= USIZE_MAX
    modifies output`len, output.data
    ensures output.Valid()
    ensures Written(old(output.AsSlice()), output.AsSlice(), EncodeBytes(Strip(value)), output.data.Length, r)
  {
    r := RlpPushBytes(output, Strip(value));
  }

  /** Wraps a finished body, which the callers know to fit, in the envelope. */
  method WrapEnvelope(ghost items: seq<Item>, body: BoundedBytes, capacity: nat) returns (r: Result<BoundedBytes, Error>)
    requires body.Valid() && body.AsSlice() == Concat(items) && capacity <= USIZE_MAX
    requires |body.AsSlice()| <= USIZE_MAX && |Envelope(items)| <= capacity
    ensures r.Ok? && fresh(r.value) && fresh(r.value.data) && r.value.Valid() && r.value.AsSlice() == Envelope(items)
  {
    var output := new BoundedBytes(capacity);
    ghost var head: bytes, prefix, all := [ENVELOPE_TYPE], LengthPrefix(0xc0, 0xf7, body.len), body.AsSlice();
    Assoc3(head, prefix, all);
    var s0: Result<Unit, Error> := output.Push(ENVELOPE_TYPE, CapacityExceeded);
    assert s0.Ok? && output.AsSlice() == head;
    var s1 := RlpPushListPrefix(output, body.len);
    assert s1.Ok?;
    var s2: Result<Unit, Error> := output.ExtendFromSlice(body.AsSlice(), CapacityExceeded);
    assert s2.Ok?;
    return Ok(output);
  }

  function IntBytes(n: u64): (s: bytes)
    ensures |s| <= 9
  {
    Pow256Eight();
    MinimalBELength(n, 8);
    EncodeBytes(MinimalBE(n))
  }

  /** The five integer fields at the front of the body. */
  method PushFees(body: BoundedBytes, chainId: u64, nonce: u64, maxPriorityFeePerGas: u64, maxFeePerGas: u64,
      gasLimit: u64)
    requires body.Valid() && body.len == 0 && body.data.Length == MAX_UNSIGNED_TX_BYTES
    modifies body`len, body.data
    ensures body.Valid()
    ensures body.AsSlice() == IntBytes(chainId) + IntBytes(nonce) + IntBytes(maxPriorityFeePerGas)
                              + IntBytes(maxFeePerGas) + IntBytes(gasLimit)
  {
    ghost var a, b, c, d, e := IntBytes(chainId), IntBytes(nonce), IntBytes(maxPriorityFeePerGas),
        IntBytes(maxFeePerGas), IntBytes(gasLimit);
    assert body.AsSlice() == [];
    var s0 := RlpPushU64(body, chainId);
    assert s0.Ok? && body.AsSlice() == a;
    var s1 := RlpPushU64(body, nonce);
    assert s1.Ok? && body.AsSlice() == a + b;
    var s2 := RlpPushU64(body, maxPriorityFeePerGas);
    assert s2.Ok? && body.AsSlice() == a + b + c;
    var s3 := RlpPushU64(body, maxFeePerGas);
    assert s3.Ok? && body.AsSlice() == a + b + c + d;
    var s4 := RlpPushU64(body, gasLimit);
    assert s4.Ok?;
  }

  /** Destination, value, empty calldata and empty access list. */
  method PushPayment(body: BoundedBytes, destination: bytes, value: u64)
    requires body.Valid() && body.len <= 45 && body.data.Length == MAX_UNSIGNED_TX_BYTES && |destination| == 20
    modifies body`len, body.data
    ensures body.Valid()
    ensures body.AsSlice() == old(body.AsSlice()) + EncodeBytes(destination) + IntBytes(value) + EncodeBytes([]) + [0xc0]
  {
    var s5 := RlpPushBytes(body, destination);
    assert s5.Ok? && |body.AsSlice()| == body.len <= 66;
    var s6 := RlpPushU64(body, value);
    assert s6.Ok? && |body.AsSlice()| == body.len <= 75;
    var s7 := RlpPushBytes(body, []);
    assert s7.Ok? && |body.AsSlice()| == body.len <= 76;
    var s8: Result<Unit, Error> := body.Push(0xc0, CapacityExceeded);
    assert s8.Ok?;
  }

  /** `encode_native_transfer`: every transfer with 64-bit fields fits its buffer,
      and the buffer then holds the canonical envelope. */
  method EncodeNativeTransfer(
    chainId: u64, nonce: u64, maxPriorityFeePerGas: u64, maxFeePerGas: u64, gasLimit: u64,
    destination: bytes, value: u64) returns (r: Result<BoundedBytes, Error>)
    requires |destination| == 20
    ensures SmallTransfer(chainId, nonce, maxPriorityFeePerGas, maxFeePerGas, gasLimit, destination, value).Valid()
    ensures r.Ok? && fresh(r.value) && r.value.Valid()
    ensures r.value.AsSlice()
         == TransferEnvelope(SmallTransfer(chainId, nonce, maxPriorityFeePerGas, maxFeePerGas, gasLimit,
             destination, value))
  {
    ghost var t := SmallTransfer(chainId, nonce, maxPriorityFeePerGas, maxFeePerGas, gasLimit, destination, value);
    SmallTransferIsValid(t);
    ghost var items := TransferItems(t);
    TransferItemsCanonical(t);
    ConcatBound(items, 33);
    ConcatNine(items);
    var body := new BoundedBytes(MAX_UNSIGNED_TX_BYTES);
    PushFees(body, chainId, nonce, maxPriorityFeePerGas, maxFeePerGas, gasLimit);
    PushPayment(body, destination, value);
    assert body.AsSlice() == Concat(items);
    EnvelopeLength(items);
    r := WrapEnvelope(items, body, MAX_UNSIGNED_TX_BYTES);
  }

  ghost function SmallTransfer(
    chainId: u64, nonce: u64, maxPriorityFeePerGas: u64, maxFeePerGas: u64, gasLimit: u64,
    destination: bytes, value: u64): Transfer
  {
    Transfer(chainId, nonce, maxPriorityFeePerGas, maxFeePerGas, gasLimit, destination, value)
  }

  lemma U64IsWord(n: u64)
    ensures IsWord(n)
  {
    Pow256Eight();
    MinimalBELength(n, 8);
  }

  lemma SmallTransferIsValid(t: Transfer)
    requires |t.destination| == 20
    requires t.chainId <= 0xFFFF_FFFF_FFFF_FFFF && t.nonce <= 0xFFFF_FFFF_FFFF_FFFF
    requires t.maxPriorityFeePerGas <= 0xFFFF_FFFF_FFFF_FFFF && t.maxFeePerGas <= 0xFFFF_FFFF_FFFF_FFFF
    requires t.gasLimit <= 0xFFFF_FFFF_FFFF_FFFF && t.value <= 0xFFFF_FFFF_FFFF_FFFF
    ensures t.Valid()
  {
    U64IsWord(t.chainId);
    U64IsWord(t.nonce);
    U64IsWord(t.maxPriorityFeePerGas);
    U64IsWord(t.maxFeePerGas);
    U64IsWord(t.gasLimit);
    U64IsWord(t.value);
  }

  method PushHalves(body: BoundedBytes, compact: bytes)
    requires |compact| == 64 && body.Valid() && body.len + 66 <= body.data.Length
    modifies body`len, body.data
    ensures body.Valid()
    ensures body.AsSlice() == old(body.AsSlice()) + EncodeBytes(Strip(compact[..32])) + EncodeBytes(Strip(compact[32..]))
  {
    var h := RlpPushIntegerBytes(body, compact[..32]);
    assert h.Ok? && |body.AsSlice()| <= |old(body.AsSlice())| + 33;
    var l := RlpPushIntegerBytes(body, compact[32..]);
    assert l.Ok?;
  }

  method PushSignature(body: BoundedBytes, signature: Eip1559Signature)
    requires body.Valid() && body.len <= MAX_UNSIGNED_TX_BYTES && body.data.Length == MAX_SIGNED_TX_BYTES
    requires signature.Valid()
    modifies body`len, body.data
    ensures body.Valid() && body.AsSlice() == old(body.AsSlice()) + Concat(SignatureItems(signature))
  {
    SignatureBytes(signature);
    ghost var before, a := body.AsSlice(), IntBytes(signature.yParity);
    ghost var b, c := EncodeBytes(Strip(signature.R())), EncodeBytes(Strip(signature.S()));
    var p := RlpPushU64(body, signature.yParity);
    assert p.Ok?;
    PushHalves(body, signature.compact);
    Assoc4(before, a, b, c);
  }

  lemma SignatureBytes(signature: Eip1559Signature)
    requires signature.Valid()
    ensures Concat(SignatureItems(signature))
         == IntBytes(signature.yParity) + EncodeBytes(Strip(signature.R())) + EncodeBytes(Strip(signature.S()))
  {
    ConcatThree(SignatureItems(signature));
  }

  /** The field-copying loop of `finalize_eip1559`. */
  method CopyFields(fields: seq<Item>) returns (body: BoundedBytes)
    requires |Concat(fields)| <= MAX_UNSIGNED_TX_BYTES
    ensures fresh(body) && fresh(body.data) && body.Valid() && body.data.Length == MAX_SIGNED_TX_BYTES
    ensures body.AsSlice() == Concat(fields)
  {
    body := new BoundedBytes(MAX_SIGNED_TX_BYTES);
    assert fields[..0] == [];
    for i := 0 to |fields|
      invariant body.Valid() && fresh(body) && fresh(body.data) && body.data.Length == MAX_SIGNED_TX_BYTES
      invariant body.AsSlice() == Concat(fields[..i])
    {
      ConcatPrefix(fields, i);
      var copied: Result<Unit, Error> := body.ExtendFromSlice(fields[i].encoded, CapacityExceeded);
      assert copied.Ok?;
    }
    assert fields[..|fields|] == fields;
  }

  /** `finalize_eip1559`. */
  method FinalizeEip1559(unsigned: bytes, signature: Eip1559Signature) returns (r: Result<BoundedBytes, Error>)
    requires |unsigned| <= MAX_UNSIGNED_TX_BYTES && signature.Valid()
    ensures r.Ok? ==> fresh(r.value) && r.value.Valid() && Finalize(unsigned, signature) == Ok(r.value.AsSlice())
    ensures r.Err? ==> Finalize(unsigned, signature) == Err(r.error)
  {
    var fields :- ParseTypedList(unsigned, UNSIGNED_FIELDS);
    FinalizePreservesFields(unsigned, signature);
    ghost var items := fields + SignatureItems(signature);
    ConcatAppend(fields, SignatureItems(signature));
    var body := CopyFields(fields);
    PushSignature(body, signature);
    r := WrapEnvelope(items, body, MAX_SIGNED_TX_BYTES);
  }
}
