/** Recursive-length-prefix items (Yellow Paper, Appendix B) as the Ethereum
    adapter reads and writes them, on values. */
module Rlp {
  import opened Bytes

  datatype Error =
    | ParserNotImplemented
    | MissingKey
    | InvalidEnvelope
    | InvalidRlp
    | NonCanonicalRlp
    | WrongFieldCount
    | IntegerTooLarge
    | ContractCreationUnsupported
    | CalldataUnsupported
    | AccessListUnsupported
    | UnexpectedCryptoResult
    | InvalidSignature
    | CapacityExceeded
    | ExecutionFinished

  datatype Item = Item(encoded: bytes, payload: bytes, isList: bool)

  // ----- The emitters -----

  function LengthDigits(len: nat): (digits: bytes)
    requires 0 < len <= USIZE_MAX
    ensures 1 <= |digits| <= 8 && digits[0] != 0 && FromBE(digits) == len
  {
    Pow256Eight();
    MinimalBELength(len, 8);
    FromMinimalBE(len);
    MinimalBE(len)
  }

  /** The header of a payload of `len` bytes. */
  function LengthPrefix(shortBase: byte, longBase: byte, len: nat): (s: bytes)
    requires shortBase <= 0xc0 && longBase <= 0xf7 && len <= USIZE_MAX
  {
    if len < 56 then [shortBase + len]
    else [longBase + |LengthDigits(len)|] + LengthDigits(len)
  }

  function EncodeBytes(value: bytes): bytes
    requires |value| <= USIZE_MAX
  {
    if |value| == 1 && value[0] < 0x80 then value
    else LengthPrefix(0x80, 0xb7, |value|) + value
  }

  function EncodeList(body: bytes): bytes
    requires |body| <= USIZE_MAX
  {
    LengthPrefix(0xc0, 0xf7, |body|) + body
  }

  function Encode(payload: bytes, isList: bool): bytes
    requires |payload| <= USIZE_MAX
  {
    if isList then EncodeList(payload) else EncodeBytes(payload)
  }

  /** An item as the emitters would have written it. */
  predicate Canonical(item: Item) {
    |item.payload| <= USIZE_MAX && item.encoded == Encode(item.payload, item.isList)
  }

  lemma KnownDigits()
    ensures MinimalBE(55) == [55] && MinimalBE(56) == [56] && MinimalBE(1024) == [4, 0]
  {
    assert MinimalBE(0) == [] && MinimalBE(4) == MinimalBE(0) + [4];
  }

  /** Headers on both sides of each step of the encoding (Yellow Paper, Appendix B). */
  lemma KnownHeaders(v: bytes)
    ensures EncodeBytes([0x7f]) == [0x7f] && EncodeBytes([0x80]) == [0x81, 0x80]
    ensures |v| == 0 ==> EncodeBytes(v) == [0x80] && EncodeList(v) == [0xc0]
    ensures |v| == 55 ==> EncodeBytes(v) == [0xb7] + v && EncodeList(v) == [0xf7] + v
  {
  }

  lemma KnownLongHeaders(v: bytes)
    requires |v| == 56 || |v| == 1024
    ensures |v| == 56 ==> EncodeBytes(v) == [0xb8, 56] + v && EncodeList(v) == [0xf8, 56] + v
    ensures |v| == 1024 ==> EncodeBytes(v) == [0xb9, 4, 0] + v && EncodeList(v) == [0xf9, 4, 0] + v
  {
    KnownDigits();
    var digits := MinimalBE(|v|);
    LongHeader(v, digits);
    assert |v| == 56 ==> [0xb7 + |digits|] + digits == [0xb8, 56] && [0xf7 + |digits|] + digits == [0xf8, 56];
    assert |v| == 1024 ==> [0xb7 + |digits|] + digits == [0xb9, 4, 0] && [0xf7 + |digits|] + digits == [0xf9, 4, 0];
  }

  lemma LongHeader(v: bytes, digits: bytes)
    requires 56 <= |v| <= USIZE_MAX && MinimalBE(|v|) == digits && |digits| <= 2
    ensures EncodeBytes(v) == [0xb7 + |digits|] + digits + v && EncodeList(v) == [0xf7 + |digits|] + digits + v
  {
  }

  // ----- The parser -----

  function ParseShort(input: bytes, len: nat, isList: bool): Result<(Item, nat), Error>
    requires input != []
  {
    var end := 1 + len;
    if |input| < end then Err(InvalidRlp)
    else if !isList && len == 1 && input[1] < 0x80 then Err(NonCanonicalRlp)
    else Ok((Item(input[..end], input[1..end], isList), end))
  }

  function ParseLong(input: bytes, lengthBytes: nat, isList: bool): Result<(Item, nat), Error>
  {
    var headerEnd := 1 + lengthBytes;
    if |input| < headerEnd || lengthBytes == 0 || input[1] == 0 then Err(NonCanonicalRlp)
    else
      var len := FromBE(input[1..headerEnd]);
      var end := headerEnd + len;
      if len < 56 then Err(NonCanonicalRlp)
      else if |input| < end then Err(InvalidRlp)
      else Ok((Item(input[..end], input[headerEnd..end], isList), end))
  }

  /** Reads the item at the front of `input` and the number of bytes it occupies. */
  function ParseItem(input: bytes): Result<(Item, nat), Error> {
    if input == [] then Err(InvalidRlp)
    else
      var prefix := input[0];
      if prefix <= 0x7f then Ok((Item(input[..1], input[..1], false), 1))
      else if prefix <= 0xb7 then ParseShort(input, prefix - 0x80, false)
      else if prefix <= 0xbf then ParseLong(input, prefix - 0xb7, false)
      else if prefix <= 0xf7 then ParseShort(input, prefix - 0xc0, true)
      else ParseLong(input, prefix - 0xf7, true)
  }

  // ----- Canonicality -----

  function ShortBase(isList: bool): byte {
    if isList then 0xc0 else 0x80
  }

  function LongBase(isList: bool): byte {
    if isList then 0xf7 else 0xb7
  }

  lemma ShortIsCanonical(input: bytes, len: nat, isList: bool)
    requires input != [] && len < 56 && input[0] == ShortBase(isList) + len
    ensures ParseShort(input, len, isList).Ok? ==>
              var (item, n) := ParseShort(input, len, isList).value;
              0 < n <= |input| && item.encoded == input[..n] && Canonical(item)
  {
    if ParseShort(input, len, isList).Ok? {
      var (item, n) := ParseShort(input, len, isList).value;
      assert item.payload == input[1..n];
      assert item.encoded == [input[0]] + item.payload;
      assert |item.payload| == len;
    }
  }

  lemma LongIsCanonical(input: bytes, k: nat, isList: bool)
    requires |input| <= USIZE_MAX
    requires input != [] && 1 <= k <= 8 && input[0] == LongBase(isList) + k
    ensures ParseLong(input, k, isList).Ok? ==>
              var (item, n) := ParseLong(input, k, isList).value;
              0 < n <= |input| && item.encoded == input[..n] && Canonical(item)
  {
    if ParseLong(input, k, isList).Ok? {
      var (item, n) := ParseLong(input, k, isList).value;
      var digits := input[1..1 + k];
      assert digits[0] == input[1];
      MinimalFromBE(digits);
      assert |item.payload| == FromBE(digits);
      assert item.encoded == input[..1 + k] + item.payload;
      assert input[..1 + k] == [input[0]] + digits;
    }
  }

  /** What the parser accepts is what the emitters write. */
  lemma ParsedIsCanonical(input: bytes)
    requires |input| <= USIZE_MAX
    ensures ParseItem(input).Ok? ==>
              var (item, n) := ParseItem(input).value;
              0 < n <= |input| && item.encoded == input[..n] && Canonical(item)
  {
    if input != [] && input[0] > 0x7f {
      var prefix := input[0];
      if prefix <= 0xb7 {
        ShortIsCanonical(input, prefix - 0x80, false);
      } else if prefix <= 0xbf {
        LongIsCanonical(input, prefix - 0xb7, false);
      } else if prefix <= 0xf7 {
        ShortIsCanonical(input, prefix - 0xc0, true);
      } else {
        LongIsCanonical(input, prefix - 0xf7, true);
      }
    }
  }

  lemma ShortParses(item: Item, input: bytes)
    requires |item.payload| < 56
    requires !item.isList && |item.payload| == 1 ==> item.payload[0] >= 0x80
    requires item.encoded == [ShortBase(item.isList) + |item.payload|] + item.payload
    requires item.encoded <= input
    ensures ParseItem(input) == Ok((item, |item.encoded|))
  {
    var len := |item.payload|;
    var head: bytes := [ShortBase(item.isList) + len];
    Parts(input, [], head, item.payload);
    assert [] + head + item.payload == item.encoded;
    assert input[0] == input[0..1][0] == head[0];
    assert len > 0 ==> input[1] == input[1..1 + len][0];
    assert ParseItem(input) == ParseShort(input, len, item.isList);
  }

  lemma LongParses(item: Item, input: bytes)
    requires 56 <= |item.payload| <= USIZE_MAX
    requires item.encoded == LengthPrefix(ShortBase(item.isList), LongBase(item.isList), |item.payload|) + item.payload
    requires item.encoded <= input
    ensures ParseItem(input) == Ok((item, |item.encoded|))
  {
    LongFormParses(item, input, LengthDigits(|item.payload|));
  }

  lemma LongFormParses(item: Item, input: bytes, digits: bytes)
    requires 1 <= |digits| <= 8 && digits[0] != 0 && FromBE(digits) == |item.payload| >= 56
    requires item.encoded == [LongBase(item.isList) + |digits|] + digits + item.payload
    requires item.encoded <= input
    ensures ParseItem(input) == Ok((item, |item.encoded|))
  {
    LongLayout(item, input, digits);
    assert input[1] == input[1..1 + |digits|][0];
    ParseItemLong(input, |digits|, item.isList);
    ParseLongIs(input, |digits|, item.isList, |item.payload|);
  }

  /** Where prefix, length and payload lie in an input that starts with a long item. */
  lemma LongLayout(item: Item, input: bytes, digits: bytes)
    requires |digits| <= 8 && item.encoded == [LongBase(item.isList) + |digits|] + digits + item.payload
    requires item.encoded <= input
    ensures input != [] && input[0] == LongBase(item.isList) + |digits|
    ensures 1 + |digits| + |item.payload| == |item.encoded| <= |input|
    ensures input[1..1 + |digits|] == digits
    ensures input[1 + |digits|..1 + |digits| + |item.payload|] == item.payload
    ensures input[..1 + |digits| + |item.payload|] == item.encoded
  {
    var head: bytes := [LongBase(item.isList) + |digits|];
    Parts(input, head, digits, item.payload);
    assert input[0] == input[..1][0] == head[0];
  }

  lemma ParseItemLong(input: bytes, k: nat, isList: bool)
    requires input != [] && 1 <= k <= 8 && input[0] == LongBase(isList) + k
    ensures ParseItem(input) == ParseLong(input, k, isList)
  {
  }

  lemma ParseLongIs(input: bytes, k: nat, isList: bool, len: nat)
    requires 0 < k && 1 + k + len <= |input| && input[1] != 0
    requires FromBE(input[1..1 + k]) == len >= 56
    ensures ParseLong(input, k, isList)
         == Ok((Item(input[..1 + k + len], input[1 + k..1 + k + len], isList), 1 + k + len))
  {
  }

  /** What the emitters write is accepted, whatever bytes follow. */
  lemma CanonicalParses(item: Item, input: bytes)
    requires Canonical(item) && item.encoded <= input
    ensures ParseItem(input) == Ok((item, |item.encoded|))
  {
    var len := |item.payload|;
    if !item.isList && len == 1 && item.payload[0] < 0x80 {
      assert input[..1] == item.payload;
    } else if len < 56 {
      ShortParses(item, input);
    } else {
      LongParses(item, input);
    }
  }

  /** The parser succeeds with an item exactly when the bytes it consumed are the
      minimal encoding of that payload and kind. */
  lemma ParseIffCanonical(input: bytes, item: Item, n: nat)
    requires |input| <= USIZE_MAX
    ensures ParseItem(input) == Ok((item, n)) <==>
            n <= |input| && item.encoded == input[..n] && Canonical(item)
  {
    ParsedIsCanonical(input);
    if n <= |input| && item.encoded == input[..n] && Canonical(item) {
      CanonicalParses(item, input);
    }
  }

  /** The parse never looks past the item. */
  lemma ParseLocal(input: bytes, other: bytes)
    requires |input| <= USIZE_MAX && |other| <= USIZE_MAX
    requires ParseItem(input).Ok?
    requires var n := ParseItem(input).value.1; n <= |other| && n <= |input| && other[..n] == input[..n]
    ensures ParseItem(other) == ParseItem(input)
  {
    var (item, n) := ParseItem(input).value;
    ParseIffCanonical(input, item, n);
    ParseIffCanonical(other, item, n);
  }
}
