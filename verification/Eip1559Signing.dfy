/** Finalising a reviewed EIP-1559 envelope and reading the signature back. */
module Eip1559Signing {
  import opened Bytes
  import opened Rlp
  import opened Eip1559

  datatype Eip1559Signature = Eip1559Signature(compact: bytes, yParity: byte) {
    predicate Valid() {
      |compact| == 64 && yParity <= 1
    }

    function R(): bytes
      requires |compact| == 64
    {
      compact[..32]
    }

    function S(): bytes
      requires |compact| == 64
    {
      compact[32..]
    }
  }

  /** The fields `(parity, r, s)` in their shortest form. */
  function SignatureItems(signature: Eip1559Signature): (items: seq<Item>)
    requires |signature.compact| == 64
    ensures |items| == 3
  {
    [BytesItem(MinimalBE(signature.yParity)),
     BytesItem(Strip(signature.R())),
     BytesItem(Strip(signature.S()))]
  }

  /** `finalize_eip1559`: the unsigned fields, byte for byte, then the signature. */
  function Finalize(unsigned: bytes, signature: Eip1559Signature): Result<bytes, Error>
    requires |unsigned| <= USIZE_MAX && |signature.compact| == 64
  {
    var fields :- TypedList(unsigned, UNSIGNED_FIELDS);
    var items := fields + SignatureItems(signature);
    if |Concat(items)| > MAX_SIGNED_TX_BYTES || |Envelope(items)| > MAX_SIGNED_TX_BYTES
    then Err(CapacityExceeded)
    else Ok(Envelope(items))
  }

  function ReadParity(payload: bytes): (r: Result<byte, Error>)
    ensures r.Ok? ==> r.value <= 1
  {
    var parity :- FromRlpScalar(payload);
    ScalarIffMinimal(payload, parity);
    var small := parity.AsU64();
    if small.None? || small.value > 1 then Err(InvalidSignature) else Ok(small.value)
  }

  function ReadHalf(payload: bytes): (r: Result<bytes, Error>)
    ensures r.Ok? ==> |r.value| <= 32
  {
    var u :- FromRlpScalar(payload);
    Ok(u.AsBE())
  }

  /** The signature held by the payloads of the last three fields. */
  function ReadSignature(parityPayload: bytes, rPayload: bytes, sPayload: bytes): (r: Result<Eip1559Signature, Error>)
    ensures r.Ok? ==> r.value.Valid()
  {
    var yParity :- ReadParity(parityPayload);
    var r :- ReadHalf(rPayload);
    var s :- ReadHalf(sPayload);
    if r == [] || s == [] then Err(InvalidSignature)
    else Ok(Eip1559Signature(PadLeft(r, 32) + PadLeft(s, 32), yParity))
  }

  /** `signature_from_signed_eip1559`. The list flag of the last three fields is
      not looked at. */
  function SignatureOf(raw: bytes): (r: Result<Eip1559Signature, Error>)
    requires |raw| <= USIZE_MAX
    ensures r.Ok? ==> r.value.Valid()
  {
    var fields :- TypedList(raw, SIGNED_FIELDS);
    TileCount(raw, SIGNED_FIELDS);
    ReadSignature(fields[9].payload, fields[10].payload, fields[11].payload)
  }

  lemma TileCount(raw: bytes, count: nat)
    requires |raw| <= USIZE_MAX && TypedList(raw, count).Ok?
    ensures |TypedList(raw, count).value| == count
  {
    TypedListIff(raw, count, TypedList(raw, count).value);
  }

  lemma SignatureItemsCanonical(signature: Eip1559Signature)
    requires signature.Valid()
    ensures AllCanonical(SignatureItems(signature))
    ensures |Concat(SignatureItems(signature))| <= 67
    ensures |SignatureItems(signature)[0].encoded| == 1
  {
    var items := SignatureItems(signature);
    assert MinimalBE(0) == [] && MinimalBE(1) == MinimalBE(0) + [1];
    assert |items[1].encoded| <= 33 && |items[2].encoded| <= 33;
    assert Concat(items[1..]) == items[1].encoded + (items[2].encoded + Concat(items[3..]));
  }

  /** An envelope that tiles is at least two bytes longer than its fields, and
      four when they exceed 255 bytes. */
  lemma EnvelopeLength(items: seq<Item>)
    requires |Concat(items)| <= 0xFFFF
    ensures |Concat(items)| + 2 <= |Envelope(items)| <= |Concat(items)| + 4
  {
    var n := |Concat(items)|;
    if n >= 56 {
      Pow256Eight();
      MinimalBELength(n, 2);
    }
  }

  lemma SignedItemsFit(fields: seq<Item>, signature: Eip1559Signature)
    requires AllCanonical(fields) && |Concat(fields)| <= MAX_UNSIGNED_TX_BYTES && signature.Valid()
    ensures AllCanonical(fields + SignatureItems(signature))
    ensures |Concat(fields + SignatureItems(signature))| <= MAX_UNSIGNED_TX_BYTES + 67
    ensures |Envelope(fields + SignatureItems(signature))| <= MAX_UNSIGNED_TX_BYTES + 71
  {
    SignatureItemsCanonical(signature);
    ConcatAppend(fields, SignatureItems(signature));
    EnvelopeLength(fields + SignatureItems(signature));
  }

  /** Signing never changes the transaction: every unsigned envelope that tiles
      into nine fields is finalised within 640 bytes, and the result tiles into
      twelve fields: the nine unsigned ones, then parity, r and s in their shortest form. */
  lemma FinalizePreservesFields(unsigned: bytes, signature: Eip1559Signature)
    requires |unsigned| <= MAX_UNSIGNED_TX_BYTES && signature.Valid()
    requires TypedList(unsigned, UNSIGNED_FIELDS).Ok?
    ensures Finalize(unsigned, signature).Ok?
    ensures |Finalize(unsigned, signature).value| <= MAX_SIGNED_TX_BYTES
    ensures |Concat(TypedList(unsigned, UNSIGNED_FIELDS).value)| <= MAX_UNSIGNED_TX_BYTES
    ensures TypedList(Finalize(unsigned, signature).value, SIGNED_FIELDS)
         == Ok(TypedList(unsigned, UNSIGNED_FIELDS).value + SignatureItems(signature))
    ensures SignatureItems(signature) == [BytesItem(MinimalBE(signature.yParity)), BytesItem(Strip(signature.compact[..32])),
                                          BytesItem(Strip(signature.compact[32..]))]
  {
    var fields := TypedList(unsigned, UNSIGNED_FIELDS).value;
    TypedListIff(unsigned, UNSIGNED_FIELDS, fields);
    SignedItemsFit(fields, signature);
    var items := fields + SignatureItems(signature);
    TypedListIff(Envelope(items), SIGNED_FIELDS, items);
  }

  predicate NonZero(s: bytes) {
    exists i :: 0 <= i < |s| && s[i] != 0
  }

  lemma {:induction false} StripEmptyIffZero(s: bytes)
    ensures Strip(s) == [] <==> !NonZero(s)
  {
    if s != [] && s[0] == 0 {
      StripEmptyIffZero(s[1..]);
      assert forall i :: 0 < i < |s| ==> s[i] == s[1..][i - 1];
    }
  }

  lemma ReadParityIff(payload: bytes, parity: byte)
    ensures ReadParity(payload) == Ok(parity) <==> parity <= 1 && payload == MinimalBE(parity)
  {
    if ReadParity(payload) == Ok(parity) {
      ScalarIffMinimal(payload, FromRlpScalar(payload).value);
    } else if parity <= 1 && payload == MinimalBE(parity) {
      Pow256Eight();
      MinimalBELength(parity, 1);
      var u := WordOf(parity);
      ScalarIffMinimal(payload, u);
    }
  }

  lemma ReadHalfIff(payload: bytes, half: bytes)
    requires |half| == 32
    ensures ReadHalf(payload).Ok? && PadLeft(ReadHalf(payload).value, 32) == half <==> payload == Strip(half)
    ensures ReadHalf(payload).Ok? ==> ReadHalf(payload).value == payload
  {
    if |payload| <= 32 && (payload != [] ==> payload[0] != 0) {
      var u := FromRlpScalar(payload).value;
      assert u.AsBE() == payload;
      StripPad(32 - |payload|, payload);
    }
    PadStrip(half);
  }

  /** Exactly the payloads that `SignatureItems` writes are read back. */
  lemma ReadSignatureIff(p: bytes, r: bytes, s: bytes, signature: Eip1559Signature)
    requires |signature.compact| == 64
    ensures ReadSignature(p, r, s) == Ok(signature) <==>
            && signature.yParity <= 1 && p == MinimalBE(signature.yParity)
            && r == Strip(signature.R()) && s == Strip(signature.S()) && r != [] && s != []
  {
    ReadParityIff(p, signature.yParity);
    ReadHalfIff(r, signature.R());
    ReadHalfIff(s, signature.S());
    if ReadSignature(p, r, s) == Ok(signature) {
      var a, b := PadLeft(ReadHalf(r).value, 32), PadLeft(ReadHalf(s).value, 32);
      assert signature.compact == a + b;
      assert signature.R() == a && signature.S() == b;
    }
    assert signature.compact == signature.R() + signature.S();
  }

  /** The signature read back from a finalised envelope is the one put in,
      provided neither half is zero; a zero half is refused. */
  lemma FinalizeRoundTrip(unsigned: bytes, signature: Eip1559Signature)
    requires |unsigned| <= MAX_UNSIGNED_TX_BYTES && signature.Valid()
    requires TypedList(unsigned, UNSIGNED_FIELDS).Ok?
    ensures Finalize(unsigned, signature).Ok?
    ensures |Finalize(unsigned, signature).value| <= MAX_SIGNED_TX_BYTES
    ensures SignatureOf(Finalize(unsigned, signature).value)
         == if NonZero(signature.R()) && NonZero(signature.S()) then Ok(signature) else Err(InvalidSignature)
  {
    FinalizePreservesFields(unsigned, signature);
    SignatureItemsCanonical(signature);
    TileCount(unsigned, UNSIGNED_FIELDS);
    var p, r, s := MinimalBE(signature.yParity), Strip(signature.R()), Strip(signature.S());
    ReadSignatureIff(p, r, s, signature);
    ReadParityIff(p, signature.yParity);
    ReadHalfIff(r, signature.R());
    ReadHalfIff(s, signature.S());
    StripEmptyIffZero(signature.R());
    StripEmptyIffZero(signature.S());
  }

  // ----- How strict the extractor is -----

  lemma TailIsBytes(tail: seq<Item>)
    requires |tail| == 3 && AllCanonical(tail)
    ensures tail == [BytesItem(tail[0].payload), BytesItem(tail[1].payload), BytesItem(tail[2].payload)] <==>
            !tail[0].isList && !tail[1].isList && !tail[2].isList
  {
    assert forall i :: 0 <= i < 3 ==> (tail[i] == BytesItem(tail[i].payload) <==> !tail[i].isList);
  }

  lemma TailIffNoList(raw: bytes, fields: seq<Item>)
    requires |raw| <= USIZE_MAX
    requires TypedList(raw, SIGNED_FIELDS) == Ok(fields) && SignatureOf(raw).Ok?
    ensures |fields| == SIGNED_FIELDS
    ensures fields[9..] == SignatureItems(SignatureOf(raw).value) <==>
            !fields[9].isList && !fields[10].isList && !fields[11].isList
  {
    var signature := SignatureOf(raw).value;
    TypedListIff(raw, SIGNED_FIELDS, fields);
    var p, r, s := fields[9].payload, fields[10].payload, fields[11].payload;
    ReadSignatureIff(p, r, s, signature);
    assert SignatureItems(signature) == [BytesItem(p), BytesItem(r), BytesItem(s)];
    TailIsBytes(fields[9..]);
  }

  /** Some bounded unsigned envelope and some signature are finalised to these bytes. */
  ghost predicate IsFinalised(raw: bytes) {
    exists unsigned: bytes, signature: Eip1559Signature ::
      |unsigned| <= MAX_UNSIGNED_TX_BYTES && signature.Valid() && Finalize(unsigned, signature) == Ok(raw)
  }

  lemma FinalisedShape(unsigned: bytes, signature: Eip1559Signature, fields: seq<Item>)
    requires |unsigned| <= MAX_UNSIGNED_TX_BYTES && signature.Valid() && Finalize(unsigned, signature).Ok?
    requires |Finalize(unsigned, signature).value| <= USIZE_MAX
    requires TypedList(Finalize(unsigned, signature).value, SIGNED_FIELDS) == Ok(fields)
    ensures |fields| == SIGNED_FIELDS && fields[9..] == SignatureItems(signature)
    ensures |Concat(fields[..9])| <= USIZE_MAX && unsigned == Envelope(fields[..9])
  {
    FinalizePreservesFields(unsigned, signature);
    var nine := TypedList(unsigned, UNSIGNED_FIELDS).value;
    TypedListIff(unsigned, UNSIGNED_FIELDS, nine);
    assert fields[..9] == nine && fields[9..] == SignatureItems(signature);
  }

  lemma FirstNineFit(raw: bytes, fields: seq<Item>)
    requires |raw| <= USIZE_MAX && TypedList(raw, SIGNED_FIELDS) == Ok(fields)
    ensures |fields| == SIGNED_FIELDS && |Concat(fields[..9])| <= USIZE_MAX
  {
    TypedListIff(raw, SIGNED_FIELDS, fields);
    ConcatAppend(fields[..9], fields[9..]);
    assert fields == fields[..9] + fields[9..];
  }

  /** An accepted envelope, of whatever length, was finalised from some unsigned one
      exactly when none of the last three fields is a list and the first nine make an
      envelope within the finaliser's bound. It was then finalised from those nine and
      the signature extracted. */
  lemma AcceptedIsFinalisedIff(raw: bytes, fields: seq<Item>)
    requires |raw| <= USIZE_MAX
    requires TypedList(raw, SIGNED_FIELDS) == Ok(fields) && SignatureOf(raw).Ok?
    ensures |fields| == SIGNED_FIELDS && |Concat(fields[..9])| <= USIZE_MAX
    ensures IsFinalised(raw) <==>
            && !fields[9].isList && !fields[10].isList && !fields[11].isList
            && |Envelope(fields[..9])| <= MAX_UNSIGNED_TX_BYTES
    ensures IsFinalised(raw) ==> Finalize(Envelope(fields[..9]), SignatureOf(raw).value) == Ok(raw)
  {
    FirstNineFit(raw, fields);
    TailIffNoList(raw, fields);
    if unsigned: bytes, signature: Eip1559Signature :|
      |unsigned| <= MAX_UNSIGNED_TX_BYTES && signature.Valid() && Finalize(unsigned, signature) == Ok(raw)
    {
      FinalisedShape(unsigned, signature, fields);
    }
    var nine := fields[..9];
    if !fields[9].isList && !fields[10].isList && !fields[11].isList && |Envelope(nine)| <= MAX_UNSIGNED_TX_BYTES {
      TypedListIff(raw, SIGNED_FIELDS, fields);
      TypedListIff(Envelope(nine), UNSIGNED_FIELDS, nine);
      assert nine + fields[9..] == fields;
      FinalizePreservesFields(Envelope(nine), SignatureOf(raw).value);
    }
  }

  lemma SignedItemsAreRead(items: seq<Item>, signature: Eip1559Signature)
    requires |items| == SIGNED_FIELDS && AllCanonical(items) && |Concat(items)| <= USIZE_MAX
    requires |Envelope(items)| <= USIZE_MAX
    requires signature.Valid() && NonZero(signature.R()) && NonZero(signature.S())
    requires var extra := SignatureItems(signature);
             items[9].payload == extra[0].payload && items[10].payload == extra[1].payload && items[11].payload == extra[2].payload
    ensures TypedList(Envelope(items), SIGNED_FIELDS) == Ok(items) && SignatureOf(Envelope(items)) == Ok(signature)
  {
    TypedListIff(Envelope(items), SIGNED_FIELDS, items);
    StripEmptyIffZero(signature.R());
    StripEmptyIffZero(signature.S());
    ReadSignatureIff(items[9].payload, items[10].payload, items[11].payload, signature);
  }

  /** The documentation calls the extractor strict. It is not: writing the parity
      of any signed envelope as a one-element list leaves the extracted signature
      unchanged, although no unsigned transaction is finalised to those bytes. */
  lemma ListParityIsAccepted(fields: seq<Item>, signature: Eip1559Signature)
    requires |fields| == UNSIGNED_FIELDS && AllCanonical(fields) && |Concat(fields)| <= MAX_UNSIGNED_TX_BYTES
    requires signature.Valid() && NonZero(signature.R()) && NonZero(signature.S())
    ensures var raw := ListParityEnvelope(fields, signature);
            |raw| <= USIZE_MAX && SignatureOf(raw) == Ok(signature) && !IsFinalised(raw)
  {
    var items := ListParityItems(fields, signature);
    ListParityLength(fields, signature);
    EnvelopeLength(items);
    SignedItemsAreRead(items, signature);
    AcceptedIsFinalisedIff(Envelope(items), items);
  }

  /** Nor does it bound what was signed: behind any nine fields that exceed the
      finaliser's input, a signature written as the finaliser would is accepted. */
  lemma OversizedIsAccepted(fields: seq<Item>, signature: Eip1559Signature)
    requires |fields| == UNSIGNED_FIELDS && AllCanonical(fields) && |Concat(fields)| <= USIZE_MAX
    requires signature.Valid() && NonZero(signature.R()) && NonZero(signature.S())
    requires |Envelope(fields)| > MAX_UNSIGNED_TX_BYTES && |Concat(fields + SignatureItems(signature))| <= USIZE_MAX
    requires |Envelope(fields + SignatureItems(signature))| <= USIZE_MAX
    ensures var raw := Envelope(fields + SignatureItems(signature));
            SignatureOf(raw) == Ok(signature) && !IsFinalised(raw)
  {
    var items := fields + SignatureItems(signature);
    SignatureItemsCanonical(signature);
    SignedItemsAreRead(items, signature);
    assert items[..9] == fields;
    AcceptedIsFinalisedIff(Envelope(items), items);
  }

  /** Eight empty fields and a calldata string of 520 bytes. */
  lemma OversizedFields() returns (fields: seq<Item>)
    ensures |fields| == UNSIGNED_FIELDS && AllCanonical(fields) && 520 <= |Concat(fields)| <= 537
  {
    var empty, calldata := BytesItem([]), BytesItem(Zeros(520));
    var eight := [empty, empty, empty, empty, empty, empty, empty, empty];
    fields := eight + [calldata];
    ConcatAppend(eight, [calldata]);
    ConcatBound(eight, 1);
    assert Concat([calldata]) == calldata.encoded;
  }

  /** Even within the 640 bytes of a signed envelope there is such an input. */
  lemma OversizedWithinBound() returns (raw: bytes, signature: Eip1559Signature)
    ensures |raw| <= MAX_SIGNED_TX_BYTES && SignatureOf(raw) == Ok(signature) && !IsFinalised(raw)
  {
    var fields := OversizedFields();
    signature := Eip1559Signature(seq(64, i => 1), 0);
    assert signature.R()[0] == 1 && signature.S()[0] == 1;
    SignatureItemsCanonical(signature);
    ConcatAppend(fields, SignatureItems(signature));
    EnvelopeLength(fields);
    EnvelopeLength(fields + SignatureItems(signature));
    OversizedIsAccepted(fields, signature);
    raw := Envelope(fields + SignatureItems(signature));
  }

  function ListParityItems(fields: seq<Item>, signature: Eip1559Signature): (items: seq<Item>)
    requires |fields| == UNSIGNED_FIELDS && AllCanonical(fields) && signature.Valid()
    ensures |items| == SIGNED_FIELDS && AllCanonical(items)
  {
    var extra := SignatureItems(signature);
    SignatureItemsCanonical(signature);
    fields + [ListItem(extra[0].payload), extra[1], extra[2]]
  }

  function ListParityEnvelope(fields: seq<Item>, signature: Eip1559Signature): bytes
    requires |fields| == UNSIGNED_FIELDS && AllCanonical(fields) && signature.Valid()
    requires |Concat(fields)| <= MAX_UNSIGNED_TX_BYTES
  {
    var items := ListParityItems(fields, signature);
    assert |Concat(items)| <= 640 by { ListParityLength(fields, signature); }
    Envelope(items)
  }

  lemma ListParityLength(fields: seq<Item>, signature: Eip1559Signature)
    requires |fields| == UNSIGNED_FIELDS && AllCanonical(fields) && signature.Valid()
    requires |Concat(fields)| <= MAX_UNSIGNED_TX_BYTES
    ensures |Concat(ListParityItems(fields, signature))| <= MAX_UNSIGNED_TX_BYTES + 99
  {
    var extra := SignatureItems(signature);
    SignatureItemsCanonical(signature);
    var tail := [ListItem(extra[0].payload), extra[1], extra[2]];
    ConcatAppend(fields, tail);
    ConcatBound(tail, 33);
  }
}
