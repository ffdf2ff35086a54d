/** EIP-1559 envelopes (EIP-1559, section "Specification"): what the adapter
    accepts, shows and signs, on values. */
module Eip1559 {
  import opened Bytes
  import opened Rlp
  import opened CryptoVocabulary

  const ENVELOPE_TYPE: byte := 0x02
  const UNSIGNED_FIELDS: nat := 9
  const SIGNED_FIELDS: nat := 12
  const MAX_UNSIGNED_TX_BYTES: nat := 512
  const MAX_SIGNED_TX_BYTES: nat := 640

  // ----- 256-bit integers -----

  /** A right-aligned 32-byte integer together with its significant length. */
  datatype Uint256 = Uint256(raw: bytes, len: nat) {
    predicate Valid() {
      && len <= 32 && |raw| == 32
      && raw == PadLeft(AsBE(), 32)
      && (len > 0 ==> AsBE()[0] != 0)
    }

    function AsBE(): (s: bytes)
      requires len <= 32 && |raw| == 32
      ensures |s| == len
    {
      raw[32 - len..]
    }

    function Number(): nat
      requires Valid()
    {
      FromBE(AsBE())
    }

    function AsU64(): Option<u64>
      requires Valid()
    {
      if len > 8 then None
      else
        assert FromBE(AsBE()) <= 0xFFFF_FFFF_FFFF_FFFF by {
          Pow256Eight(); FromBEBound(AsBE()); Pow256Monotone(len, 8);
        }
        Some(FromBE(AsBE()))
    }
  }

  function FromRlpScalar(value: bytes): (r: Result<Uint256, Error>) {
    if |value| > 32 then Err(IntegerTooLarge)
    else if value != [] && value[0] == 0 then Err(NonCanonicalRlp)
    else Ok(Uint256(PadLeft(value, 32), |value|))
  }

  /** A scalar is accepted exactly when it is the shortest encoding of a number
      below 2^256, and it is then the number read back. */
  lemma ScalarIffMinimal(value: bytes, u: Uint256)
    ensures FromRlpScalar(value) == Ok(u) <==>
            u.Valid() && value == MinimalBE(u.Number())
  {
    if FromRlpScalar(value) == Ok(u) {
      assert u.AsBE() == value;
      MinimalFromBE(value);
    } else if u.Valid() && value == MinimalBE(u.Number()) {
      MinimalFromBE(u.AsBE());
    }
  }

  /** The numbers a `Uint256` holds: those of at most 32 big-endian digits. */
  predicate IsWord(n: nat) {
    |MinimalBE(n)| <= 32
  }

  lemma WordIffBelow(n: nat)
    ensures IsWord(n) <==> n < Pow256(32)
  {
    if n < Pow256(32) {
      MinimalBELength(n, 32);
    }
    FromMinimalBE(n);
    FromBEBound(MinimalBE(n));
    if IsWord(n) {
      Pow256Monotone(|MinimalBE(n)|, 32);
    }
  }

  // ----- Typed lists -----

  function Concat(items: seq<Item>): bytes {
    if items == [] then [] else items[0].encoded + Concat(items[1..])
  }

  predicate AllCanonical(items: seq<Item>) {
    forall i :: 0 <= i < |items| ==> Canonical(items[i])
  }

  function Envelope(items: seq<Item>): bytes
    requires |Concat(items)| <= USIZE_MAX
  {
    [ENVELOPE_TYPE] + EncodeList(Concat(items))
  }

  /** Splits `rest` into exactly `count` items. */
  function Tile(rest: bytes, count: nat): Result<seq<Item>, Error>
    requires |rest| <= USIZE_MAX
    decreases |rest|
  {
    if rest == [] then
      if count == 0 then Ok([]) else Err(WrongFieldCount)
    else if count == 0 then Err(WrongFieldCount)
    else
      ParsedIsCanonical(rest);
      var (item, used) :- ParseItem(rest);
      var tail :- Tile(rest[used..], count - 1);
      Ok([item] + tail)
  }

  function TypedList(raw: bytes, count: nat): Result<seq<Item>, Error>
    requires |raw| <= USIZE_MAX
  {
    if raw == [] || raw[0] != ENVELOPE_TYPE then Err(InvalidEnvelope)
    else
      var (top, consumed) :- ParseItem(raw[1..]);
      if !top.isList || consumed + 1 != |raw| then Err(InvalidEnvelope)
      else
        assert |top.payload| <= USIZE_MAX by { ParsedIsCanonical(raw[1..]); }
        Tile(top.payload, count)
  }

  lemma TileStep(rest: bytes, count: nat, items: seq<Item>)
    requires rest != [] && |rest| <= USIZE_MAX && Tile(rest, count) == Ok(items)
    ensures count > 0 && items != [] && Canonical(items[0])
    ensures 0 < |items[0].encoded| <= |rest| && items[0].encoded == rest[..|items[0].encoded|]
    ensures Tile(rest[|items[0].encoded|..], count - 1) == Ok(items[1..])
  {
    ParsedIsCanonical(rest);
    var (item, used) := ParseItem(rest).value;
    var tail := Tile(rest[used..], count - 1).value;
    assert items == [item] + tail && items[1..] == tail;
  }

  lemma {:induction false} TileSound(rest: bytes, count: nat, items: seq<Item>)
    requires |rest| <= USIZE_MAX && Tile(rest, count) == Ok(items)
    ensures |items| == count && AllCanonical(items) && Concat(items) == rest
    decreases |rest|
  {
    if rest != [] {
      TileStep(rest, count, items);
      var used := |items[0].encoded|;
      TileSound(rest[used..], count - 1, items[1..]);
      ConcatStep(rest, used, items);
    }
  }

  lemma ConcatStep(rest: bytes, used: nat, items: seq<Item>)
    requires items != [] && Canonical(items[0]) && AllCanonical(items[1..])
    requires used <= |rest| && items[0].encoded == rest[..used] && Concat(items[1..]) == rest[used..]
    ensures AllCanonical(items) && Concat(items) == rest
  {
    assert rest == rest[..used] + rest[used..];
    assert forall i :: 0 < i < |items| ==> items[i] == items[1..][i - 1];
  }

  lemma EncodedNonEmpty(item: Item)
    requires Canonical(item)
    ensures item.encoded != []
  {
  }

  lemma {:induction false} TileComplete(items: seq<Item>)
    requires AllCanonical(items) && |Concat(items)| <= USIZE_MAX
    ensures Tile(Concat(items), |items|) == Ok(items)
  {
    if items != [] {
      var rest := Concat(items);
      EncodedNonEmpty(items[0]);
      CanonicalParses(items[0], rest);
      assert rest[|items[0].encoded|..] == Concat(items[1..]);
      TileComplete(items[1..]);
      assert [items[0]] + items[1..] == items;
    }
  }

  lemma TypedTop(raw: bytes, top: Item)
    requires raw != [] && |raw| <= USIZE_MAX && raw[0] == ENVELOPE_TYPE
    requires ParseItem(raw[1..]) == Ok((top, |raw| - 1)) && top.isList
    ensures |top.payload| <= USIZE_MAX && raw == [ENVELOPE_TYPE] + EncodeList(top.payload)
  {
    var tail := raw[1..];
    ParsedIsCanonical(tail);
    assert tail[..|raw| - 1] == tail;
    assert raw == [raw[0]] + tail;
  }

  lemma TypedListSound(raw: bytes, count: nat, items: seq<Item>)
    requires |raw| <= USIZE_MAX && TypedList(raw, count) == Ok(items)
    ensures |items| == count && AllCanonical(items)
    ensures |Concat(items)| <= USIZE_MAX && raw == Envelope(items)
  {
    var top := ParseItem(raw[1..]).value.0;
    TypedTop(raw, top);
    TileSound(top.payload, count, items);
  }

  lemma TypedListComplete(items: seq<Item>)
    requires AllCanonical(items) && |Concat(items)| <= USIZE_MAX && |Envelope(items)| <= USIZE_MAX
    ensures TypedList(Envelope(items), |items|) == Ok(items)
  {
    var body, raw := Concat(items), Envelope(items);
    var top := Item(EncodeList(body), body, true);
    assert raw[1..] == top.encoded;
    CanonicalParses(top, raw[1..]);
    TileComplete(items);
  }

  /** An envelope tiles into `count` items exactly when it is the canonical
      envelope of `count` canonical items. */
  lemma TypedListIff(raw: bytes, count: nat, items: seq<Item>)
    requires |raw| <= USIZE_MAX
    ensures TypedList(raw, count) == Ok(items) <==>
            && |items| == count && AllCanonical(items)
            && |Concat(items)| <= USIZE_MAX && raw == Envelope(items)
  {
    if TypedList(raw, count) == Ok(items) {
      TypedListSound(raw, count, items);
    }
    if |items| == count && AllCanonical(items) && |Concat(items)| <= USIZE_MAX && raw == Envelope(items) {
      TypedListComplete(items);
    }
  }

  lemma {:induction false} ConcatAppend(a: seq<Item>, b: seq<Item>)
    ensures Concat(a + b) == Concat(a) + Concat(b)
  {
    if a == [] {
      assert a + b == b;
    } else {
      assert (a + b)[0] == a[0] && (a + b)[1..] == a[1..] + b;
      ConcatAppend(a[1..], b);
    }
  }

  lemma {:induction false} ConcatPrefix(items: seq<Item>, k: nat)
    requires k < |items|
    ensures Concat(items[..k + 1]) == Concat(items[..k]) + items[k].encoded
    ensures |Concat(items[..k + 1])| <= |Concat(items)|
  {
    ConcatAppend(items[..k], [items[k]]);
    assert Concat([items[k]]) == items[k].encoded + Concat([]);
    assert items[..k + 1] == items[..k] + [items[k]];
    ConcatAppend(items[..k + 1], items[k + 1..]);
    assert items == items[..k + 1] + items[k + 1..];
  }

  lemma ConcatThree(items: seq<Item>)
    requires |items| == 3
    ensures Concat(items) == items[0].encoded + items[1].encoded + items[2].encoded
  {
    assert Concat(items[..0]) == [];
    ConcatPrefix(items, 0);
    ConcatPrefix(items, 1);
    ConcatPrefix(items, 2);
    assert items[..3] == items;
  }

  lemma ConcatNine(items: seq<Item>)
    requires |items| == 9
    ensures Concat(items)
         == items[0].encoded + items[1].encoded + items[2].encoded + items[3].encoded + items[4].encoded
            + items[5].encoded + items[6].encoded + items[7].encoded + items[8].encoded
  {
    ConcatPrefix(items, 8);
    ConcatPrefix(items, 7);
    ConcatPrefix(items, 6);
    ConcatPrefix(items, 5);
    assert items[..9] == items;
    ConcatFive(items[..5]);
  }

  lemma ConcatFive(items: seq<Item>)
    requires |items| == 5
    ensures Concat(items)
         == items[0].encoded + items[1].encoded + items[2].encoded + items[3].encoded + items[4].encoded
  {
    ConcatPrefix(items, 4);
    ConcatPrefix(items, 3);
    assert items[..5] == items;
    ConcatThree(items[..3]);
  }

  // ----- The reviewed transfer -----

  datatype Eip1559Review = Eip1559Review(
    key: KeyTarget,
    chainId: Uint256,
    nonce: Uint256,
    maxPriorityFeePerGas: Uint256,
    maxFeePerGas: Uint256,
    gasLimit: Uint256,
    destination: bytes,
    value: Uint256,
    unsigned: bytes)
  {
    predicate Valid() {
      && chainId.Valid() && nonce.Valid() && maxPriorityFeePerGas.Valid() && maxFeePerGas.Valid()
      && gasLimit.Valid() && value.Valid() && |destination| == 20
    }

    /** The numbers and the address a user sees. */
    function Shown(): Transfer
      requires Valid()
    {
      Transfer(chainId.Number(), nonce.Number(), maxPriorityFeePerGas.Number(), maxFeePerGas.Number(),
               gasLimit.Number(), destination, value.Number())
    }
  }

  /** A native transfer: no calldata, no access list. */
  datatype Transfer = Transfer(
    chainId: nat,
    nonce: nat,
    maxPriorityFeePerGas: nat,
    maxFeePerGas: nat,
    gasLimit: nat,
    destination: bytes,
    value: nat)
  {
    /** Every integer fits 256 bits and the destination is an address. */
    predicate Valid() {
      && IsWord(chainId) && IsWord(nonce) && IsWord(maxPriorityFeePerGas)
      && IsWord(maxFeePerGas) && IsWord(gasLimit) && IsWord(value)
      && |destination| == 20
    }
  }

  function BytesItem(value: bytes): Item
    requires |value| <= USIZE_MAX
  {
    Item(EncodeBytes(value), value, false)
  }

  function ListItem(body: bytes): Item
    requires |body| <= USIZE_MAX
  {
    Item(EncodeList(body), body, true)
  }

  /** A 256-bit integer as an item: at most 33 bytes. */
  function IntItem(n: nat): Item
    requires IsWord(n)
  {
    BytesItem(MinimalBE(n))
  }

  function TransferItems(t: Transfer): (items: seq<Item>)
    requires t.Valid()
    ensures |items| == UNSIGNED_FIELDS
  {
    [IntItem(t.chainId), IntItem(t.nonce), IntItem(t.maxPriorityFeePerGas), IntItem(t.maxFeePerGas),
     IntItem(t.gasLimit), BytesItem(t.destination), IntItem(t.value), BytesItem([]), ListItem([])]
  }

  lemma TransferItemsCanonical(t: Transfer)
    requires t.Valid()
    ensures AllCanonical(TransferItems(t))
    ensures forall i :: 0 <= i < UNSIGNED_FIELDS ==> |TransferItems(t)[i].encoded| <= 33
  {
  }

  lemma {:induction false} ConcatBound(items: seq<Item>, each: nat)
    requires forall i :: 0 <= i < |items| ==> |items[i].encoded| <= each
    ensures |Concat(items)| <= |items| * each
  {
    if items != [] {
      ConcatBound(items[1..], each);
    }
  }

  function TransferBody(t: Transfer): (body: bytes)
    requires t.Valid()
    ensures |body| <= UNSIGNED_FIELDS * 33
  {
    TransferItemsCanonical(t);
    ConcatBound(TransferItems(t), 33);
    Concat(TransferItems(t))
  }

  /** The one byte string that stands for a transfer. */
  function TransferEnvelope(t: Transfer): bytes
    requires t.Valid()
  {
    var body := TransferBody(t);
    Envelope(TransferItems(t))
  }

  lemma KnownNumbers()
    ensures MinimalBE(0) == [] && MinimalBE(1) == [1] && MinimalBE(21_000) == [0x52, 0x08]
    ensures MinimalBE(31_337) == [0x7a, 0x69] && MinimalBE(1_000_000_000) == [0x3b, 0x9a, 0xca, 0x00]
    ensures MinimalBE(2_000_000_000) == [0x77, 0x35, 0x94, 0x00]
  {
    assert MinimalBE(0x3b) == MinimalBE(0) + [0x3b] && MinimalBE(0x77) == MinimalBE(0) + [0x77];
    assert MinimalBE(0x3b9a) == MinimalBE(0x3b) + [0x9a] && MinimalBE(0x7735) == MinimalBE(0x77) + [0x35];
    assert MinimalBE(0x3b9aca) == MinimalBE(0x3b9a) + [0xca] && MinimalBE(0x773594) == MinimalBE(0x7735) + [0x94];
  }

  /** The transfer of the adapter's own tests, and its bytes (EIP-1559, "Specification"). */
  function KnownTransfer(destination: bytes): (t: Transfer)
    requires |destination| == 20
    ensures t.Valid()
  {
    KnownNumbers();
    Transfer(31_337, 0, 1_000_000_000, 2_000_000_000, 21_000, destination, 1)
  }

  function KnownBody(destination: bytes): bytes {
    [0x82, 0x7a, 0x69] + [0x80] + [0x84, 0x3b, 0x9a, 0xca, 0x00] + [0x84, 0x77, 0x35, 0x94, 0x00]
    + [0x82, 0x52, 0x08] + ([0x94] + destination) + [0x01] + [0x80] + [0xc0]
  }

  lemma KnownItems(destination: bytes)
    requires |destination| == 20
    ensures Concat(TransferItems(KnownTransfer(destination))) == KnownBody(destination)
  {
    KnownNumbers();
    var items := TransferItems(KnownTransfer(destination));
    assert items[0].encoded == [0x82, 0x7a, 0x69] && items[1].encoded == [0x80] && items[2].encoded == [0x84, 0x3b, 0x9a, 0xca, 0x00];
    assert items[3].encoded == [0x84, 0x77, 0x35, 0x94, 0x00] && items[4].encoded == [0x82, 0x52, 0x08];
    assert items[5].encoded == [0x94] + destination;
    assert items[6].encoded == [0x01] && items[7].encoded == [0x80] && items[8].encoded == [0xc0];
    ConcatNine(items);
  }

  lemma KnownEnvelope(destination: bytes)
    requires |destination| == 20
    ensures TransferEnvelope(KnownTransfer(destination)) == [0x02, 0xe9] + KnownBody(destination)
  {
    KnownItems(destination);
  }

  function BytesPayload(item: Item): Result<bytes, Error> {
    if item.isList then Err(InvalidRlp) else Ok(item.payload)
  }

  function UintOf(item: Item): Result<Uint256, Error> {
    var payload :- BytesPayload(item);
    FromRlpScalar(payload)
  }

  /** What is checked of the nine fields, and in which order. */
  function ReviewFields(key: KeyTarget, unsigned: bytes, fields: seq<Item>): Result<Eip1559Review, Error>
    requires |fields| == UNSIGNED_FIELDS
  {
    var destination :- BytesPayload(fields[5]);
    if destination == [] then Err(ContractCreationUnsupported)
    else if |destination| != 20 then Err(InvalidEnvelope)
    else
      var calldata :- BytesPayload(fields[7]);
      if calldata != [] then Err(CalldataUnsupported)
      else if !fields[8].isList || fields[8].payload != [] then Err(AccessListUnsupported)
      else
        var chainId :- UintOf(fields[0]);
        var nonce :- UintOf(fields[1]);
        var tip :- UintOf(fields[2]);
        var maxFee :- UintOf(fields[3]);
        var gasLimit :- UintOf(fields[4]);
        var value :- UintOf(fields[6]);
        Ok(Eip1559Review(key, chainId, nonce, tip, maxFee, gasLimit, destination, value, unsigned))
  }

  /** `parse_eip1559`: the review of an untrusted unsigned envelope. */
  function ParseEip1559(key: KeyTarget, unsigned: bytes): Result<Eip1559Review, Error>
    requires |unsigned| <= USIZE_MAX
  {
    var fields :- TypedList(unsigned, UNSIGNED_FIELDS);
    TypedListIff(unsigned, UNSIGNED_FIELDS, fields);
    ReviewFields(key, unsigned, fields)
  }

  /** An integer field is accepted exactly when it is the item of its number. */
  lemma UintIff(item: Item, u: Uint256)
    requires Canonical(item)
    ensures u.Valid() ==> IsWord(u.Number())
    ensures UintOf(item) == Ok(u) <==> u.Valid() && item == IntItem(u.Number())
  {
    if u.Valid() {
      MinimalFromBE(u.AsBE());
    }
    ScalarIffMinimal(item.payload, u);
  }

  lemma IntItemShows(u: Uint256)
    requires u.Valid()
    ensures IsWord(u.Number()) && UintOf(IntItem(u.Number())) == Ok(u)
  {
    MinimalFromBE(u.AsBE());
    UintIff(IntItem(u.Number()), u);
  }

  /** What the adapter does not support is refused by name: the creation of a contract,
      calldata and an access list, in this order, in any envelope of nine fields. */
  lemma UnsupportedIsNamed(key: KeyTarget, unsigned: bytes, fields: seq<Item>)
    requires |unsigned| <= USIZE_MAX && TypedList(unsigned, UNSIGNED_FIELDS) == Ok(fields)
    ensures |fields| == UNSIGNED_FIELDS
    ensures fields[5] == BytesItem([]) ==> ParseEip1559(key, unsigned) == Err(ContractCreationUnsupported)
    ensures !fields[5].isList && |fields[5].payload| == 20 && !fields[7].isList && fields[7] != BytesItem([]) ==>
              ParseEip1559(key, unsigned) == Err(CalldataUnsupported)
    ensures !fields[5].isList && |fields[5].payload| == 20 && fields[7] == BytesItem([]) && fields[8] != ListItem([]) ==>
              ParseEip1559(key, unsigned) == Err(AccessListUnsupported)
  {
    TypedListIff(unsigned, UNSIGNED_FIELDS, fields);
    assert Canonical(fields[7]) && Canonical(fields[8]);
  }

  /** The seven integer and address fields hold exactly what the review shows. */
  predicate ShowsFields(fields: seq<Item>, review: Eip1559Review)
    requires |fields| == UNSIGNED_FIELDS
  {
    && UintOf(fields[0]) == Ok(review.chainId)
    && UintOf(fields[1]) == Ok(review.nonce)
    && UintOf(fields[2]) == Ok(review.maxPriorityFeePerGas)
    && UintOf(fields[3]) == Ok(review.maxFeePerGas)
    && UintOf(fields[4]) == Ok(review.gasLimit)
    && BytesPayload(fields[5]) == Ok(review.destination) && |review.destination| == 20
    && UintOf(fields[6]) == Ok(review.value)
    && BytesPayload(fields[7]) == Ok([])
    && fields[8].isList && fields[8].payload == []
  }

  lemma ReviewShowsFields(key: KeyTarget, unsigned: bytes, fields: seq<Item>, review: Eip1559Review)
    requires |fields| == UNSIGNED_FIELDS
    ensures ReviewFields(key, unsigned, fields) == Ok(review) <==>
            review.key == key && review.unsigned == unsigned && ShowsFields(fields, review)
  {
  }

  lemma ParsedShowsFields(key: KeyTarget, unsigned: bytes, fields: seq<Item>, review: Eip1559Review)
    requires |unsigned| <= USIZE_MAX
    requires TypedList(unsigned, UNSIGNED_FIELDS) == Ok(fields) && |fields| == UNSIGNED_FIELDS
    ensures ParseEip1559(key, unsigned) == Ok(review) <==>
            review.key == key && review.unsigned == unsigned && ShowsFields(fields, review)
  {
    ReviewShowsFields(key, unsigned, fields, review);
  }

  lemma UintFieldIs(item: Item, u: Uint256)
    requires Canonical(item) && UintOf(item) == Ok(u)
    ensures u.Valid() && IsWord(u.Number()) && item == IntItem(u.Number())
  {
    UintIff(item, u);
  }

  lemma AddressFieldIs(item: Item, destination: bytes)
    requires Canonical(item) && BytesPayload(item) == Ok(destination)
    ensures |destination| <= USIZE_MAX && item == BytesItem(destination)
  {
  }

  lemma EmptyListIs(item: Item)
    requires Canonical(item) && item.isList && item.payload == []
    ensures item == ListItem([])
  {
  }

  lemma ShownFieldsAreCanonical(fields: seq<Item>, review: Eip1559Review)
    requires |fields| == UNSIGNED_FIELDS && AllCanonical(fields) && ShowsFields(fields, review)
    ensures review.Valid() && review.Shown().Valid()
    ensures fields == TransferItems(review.Shown())
  {
    UintFieldIs(fields[0], review.chainId);
    UintFieldIs(fields[1], review.nonce);
    UintFieldIs(fields[2], review.maxPriorityFeePerGas);
    UintFieldIs(fields[3], review.maxFeePerGas);
    UintFieldIs(fields[4], review.gasLimit);
    AddressFieldIs(fields[5], review.destination);
    UintFieldIs(fields[6], review.value);
    AddressFieldIs(fields[7], []);
    EmptyListIs(fields[8]);
    FieldsAreTransferItems(fields, review.Shown());
  }

  lemma FieldsAreTransferItems(fields: seq<Item>, t: Transfer)
    requires |fields| == UNSIGNED_FIELDS && t.Valid()
    requires fields[0] == IntItem(t.chainId) && fields[1] == IntItem(t.nonce)
    requires fields[2] == IntItem(t.maxPriorityFeePerGas) && fields[3] == IntItem(t.maxFeePerGas)
    requires fields[4] == IntItem(t.gasLimit) && fields[5] == BytesItem(t.destination)
    requires fields[6] == IntItem(t.value) && fields[7] == BytesItem([]) && fields[8] == ListItem([])
    ensures fields == TransferItems(t)
  {
  }

  lemma TransferFieldsShow(t: Transfer, review: Eip1559Review)
    requires t.Valid() && t.destination == review.destination
    requires UintOf(IntItem(t.chainId)) == Ok(review.chainId)
    requires UintOf(IntItem(t.nonce)) == Ok(review.nonce)
    requires UintOf(IntItem(t.maxPriorityFeePerGas)) == Ok(review.maxPriorityFeePerGas)
    requires UintOf(IntItem(t.maxFeePerGas)) == Ok(review.maxFeePerGas)
    requires UintOf(IntItem(t.gasLimit)) == Ok(review.gasLimit)
    requires UintOf(IntItem(t.value)) == Ok(review.value)
    ensures ShowsFields(TransferItems(t), review)
  {
  }

  lemma TransferFieldsAreShown(review: Eip1559Review)
    requires review.Valid() && review.Shown().Valid()
    ensures ShowsFields(TransferItems(review.Shown()), review)
  {
    IntItemShows(review.chainId);
    IntItemShows(review.nonce);
    IntItemShows(review.maxPriorityFeePerGas);
    IntItemShows(review.maxFeePerGas);
    IntItemShows(review.gasLimit);
    IntItemShows(review.value);
    TransferFieldsShow(review.Shown(), review);
  }

  /** A byte string is accepted exactly when it is the canonical envelope of what
      the review shows. */
  lemma AcceptedIffCanonical(key: KeyTarget, unsigned: bytes, review: Eip1559Review)
    requires |unsigned| <= USIZE_MAX
    ensures ParseEip1559(key, unsigned) == Ok(review) <==>
            && review.Valid() && review.key == key && review.unsigned == unsigned
            && review.Shown().Valid() && unsigned == TransferEnvelope(review.Shown())
  {
    if ParseEip1559(key, unsigned) == Ok(review) {
      var fields := TypedList(unsigned, UNSIGNED_FIELDS).value;
      TypedListIff(unsigned, UNSIGNED_FIELDS, fields);
      ParsedShowsFields(key, unsigned, fields, review);
      ShownFieldsAreCanonical(fields, review);
    }
    if review.Valid() && review.key == key && review.unsigned == unsigned && review.Shown().Valid()
       && unsigned == TransferEnvelope(review.Shown()) {
      var fields := TransferItems(review.Shown());
      var body := TransferBody(review.Shown());
      TransferItemsCanonical(review.Shown());
      TypedListIff(unsigned, UNSIGNED_FIELDS, fields);
      TransferFieldsAreShown(review);
      ParsedShowsFields(key, unsigned, fields, review);
    }
  }

  /** What is shown determines the bytes: two accepted requests with the same
      numbers and address on the screen are the same bytes. */
  lemma ShownDeterminesBytes(key: KeyTarget, a: bytes, b: bytes)
    requires |a| <= USIZE_MAX && |b| <= USIZE_MAX
    requires ParseEip1559(key, a).Ok? && ParseEip1559(key, b).Ok?
    ensures ParseEip1559(key, a).value.Valid() && ParseEip1559(key, b).value.Valid()
    ensures ParseEip1559(key, a).value.Shown() == ParseEip1559(key, b).value.Shown() <==> a == b
  {
    AcceptedIffCanonical(key, a, ParseEip1559(key, a).value);
    AcceptedIffCanonical(key, b, ParseEip1559(key, b).value);
  }

  lemma WordOf(n: nat) returns (u: Uint256)
    requires IsWord(n)
    ensures u.Valid() && u.Number() == n
    ensures n <= 0xFFFF_FFFF_FFFF_FFFF ==> u.AsU64() == Some(n)
  {
    FromMinimalBE(n);
    var digits := MinimalBE(n);
    u := Uint256(PadLeft(digits, 32), |digits|);
    assert u.AsBE() == digits;
    if n <= 0xFFFF_FFFF_FFFF_FFFF {
      Pow256Eight();
      MinimalBELength(n, 8);
    }
  }

  /** Every transfer has an accepted envelope, and the review shows it back. */
  lemma EnvelopeIsAccepted(key: KeyTarget, t: Transfer)
    requires t.Valid()
    ensures |TransferEnvelope(t)| <= UNSIGNED_FIELDS * 33 + 10
    ensures ParseEip1559(key, TransferEnvelope(t)).Ok?
    ensures ParseEip1559(key, TransferEnvelope(t)).value.Valid()
    ensures ParseEip1559(key, TransferEnvelope(t)).value.Shown() == t
  {
    var body := TransferBody(t);
    var c := WordOf(t.chainId);
    var n := WordOf(t.nonce);
    var p := WordOf(t.maxPriorityFeePerGas);
    var f := WordOf(t.maxFeePerGas);
    var g := WordOf(t.gasLimit);
    var v := WordOf(t.value);
    var review := Eip1559Review(key, c, n, p, f, g, t.destination, v, TransferEnvelope(t));
    assert review.Shown() == t;
    AcceptedIffCanonical(key, TransferEnvelope(t), review);
  }
}
