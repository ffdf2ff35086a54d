/** Reading and writing the Bitcoin wire format: byte runs and CompactSize. */
module BitcoinWire {
  import opened Bytes
  import opened ChainApi

  datatype Error =
    | ParserNotImplemented
    | MissingKey
    | InvalidPsbt
    | InvalidCompactSize
    | NonCanonicalCompactSize
    | UnsupportedGlobal
    | UnsupportedInput
    | UnsupportedOutput
    | DuplicateField
    | InvalidUnsignedTransaction
    | UnsupportedInputCount
    | UnsupportedOutputCount
    | NonEmptyScriptSig
    | UnsupportedScript
    | MissingWitnessUtxo
    | UnsupportedSighash
    | FeeUnderflow
    | UnexpectedCryptoResult
    | PublicKeyMismatch
    | WitnessProgramMismatch
    | InvalidDigest
    | InvalidSignature
    | CapacityExceeded
    | ExecutionFinished
    | TrailingBytes

  const U64_MAX: nat := 0xFFFF_FFFF_FFFF_FFFF

  // ----- Runs of bytes -----

  function Take(s: bytes, n: nat): (r: Result<Read<bytes>, Error>)
    ensures r.Ok? <==> n <= |s|
    ensures r.Ok? ==> |r.value.value| == n && s == r.value.value + r.value.rest
    ensures r.Err? ==> r.error == InvalidPsbt
  {
    if n > |s| then Err(InvalidPsbt) else Ok(Read(s[..n], s[n..]))
  }

  lemma TakeFront(v: bytes, rest: bytes)
    ensures Take(v + rest, |v|) == Ok(Read(v, rest))
  {
    assert (v + rest)[..|v|] == v && (v + rest)[|v|..] == rest;
  }

  function TakeByte(s: bytes): (r: Result<Read<byte>, Error>)
    ensures r.Ok? <==> s != []
    ensures r.Ok? ==> s == [r.value.value] + r.value.rest
    ensures r.Err? ==> r.error == InvalidPsbt
  {
    if s == [] then Err(InvalidPsbt) else Ok(Read(s[0], s[1..]))
  }

  lemma TakeByteFront(b: byte, rest: bytes)
    ensures TakeByte([b] + rest) == Ok(Read(b, rest))
  {
    assert ([b] + rest)[1..] == rest;
  }

  // ----- CompactSize -----

  /** The shortest CompactSize encoding of a 64-bit length. */
  function CompactSize(n: nat): (s: bytes)
    requires n <= U64_MAX
    ensures 1 <= |s| <= 9
  {
    if n < 0xfd then [n]
    else if n <= 0xFFFF then [0xfd] + FixedLE(n, 2)
    else if n <= 0xFFFF_FFFF then [0xfe] + FixedLE(n, 4)
    else [0xff] + FixedLE(n, 8)
  }

  /** Lengths on both sides of each step of the encoding. */
  lemma KnownCompactSizes()
    ensures CompactSize(252) == [252] && CompactSize(253) == [0xfd, 253, 0]
    ensures CompactSize(0xFFFF) == [0xfd, 0xff, 0xff] && CompactSize(0x1_0000) == [0xfe, 0, 0, 1, 0]
    ensures CompactSize(0x1_0000_0000) == [0xff, 0, 0, 0, 0, 1, 0, 0, 0]
  {
  }

  /** A little-endian length of `width` bytes that must exceed `floor`. */
  function TakeWide(s: bytes, width: nat, floor: nat): Result<Read<nat>, Error> {
    var raw :- Take(s, width);
    if FromLE(raw.value) <= floor then Err(NonCanonicalCompactSize)
    else if FromLE(raw.value) > USIZE_MAX then Err(InvalidCompactSize)
    else Ok(Read(FromLE(raw.value), raw.rest))
  }

  function TakeCompactSize(s: bytes): Result<Read<nat>, Error> {
    var first :- TakeByte(s);
    if first.value <= 0xfc then Ok(Read(first.value, first.rest))
    else if first.value == 0xfd then TakeWide(first.rest, 2, 0xfc)
    else if first.value == 0xfe then TakeWide(first.rest, 4, 0xFFFF)
    else TakeWide(first.rest, 8, 0xFFFF_FFFF)
  }

  lemma TakeWideIff(s: bytes, width: nat, floor: nat, n: nat, rest: bytes)
    requires width in {2, 4, 8} && n <= U64_MAX
    ensures TakeWide(s, width, floor) == Ok(Read(n, rest)) <==>
            floor < n < Pow256(width) && s == FixedLE(n, width) + rest
  {
    Pow256Eight();
    if width <= |s| {
      FixedFromLE(s[..width]);
      Pow256Monotone(width, 8);
    }
    if floor < n < Pow256(width) && s == FixedLE(n, width) + rest {
      TakeFront(FixedLE(n, width), rest);
      FromFixedLE(n, width);
    }
  }

  lemma TakeWideBound(s: bytes, width: nat, floor: nat)
    requires width in {2, 4, 8}
    ensures TakeWide(s, width, floor).Ok? ==> TakeWide(s, width, floor).value.value <= U64_MAX
  {
  }

  /** A length is read exactly when its shortest encoding stands at the front. */
  lemma CompactSizeIff(s: bytes, n: nat, rest: bytes)
    ensures TakeCompactSize(s) == Ok(Read(n, rest)) <==> n <= U64_MAX && s == CompactSize(n) + rest
  {
    if s != [] {
      var tail := s[1..];
      assert s == [s[0]] + tail;
      if n <= U64_MAX {
        Pow256Eight();
        TakeWideIff(tail, 2, 0xfc, n, rest);
        TakeWideIff(tail, 4, 0xFFFF, n, rest);
        TakeWideIff(tail, 8, 0xFFFF_FFFF, n, rest);
        CompactSizeFront(s, n, rest);
      } else {
        TakeWideBound(tail, 2, 0xfc);
        TakeWideBound(tail, 4, 0xFFFF);
        TakeWideBound(tail, 8, 0xFFFF_FFFF);
      }
    }
  }

  lemma CompactSizeFront(s: bytes, n: nat, rest: bytes)
    requires s != [] && n <= U64_MAX
    ensures s == CompactSize(n) + rest <==>
            if n < 0xfd then s[0] == n && s[1..] == rest
            else if n <= 0xFFFF then s[0] == 0xfd && s[1..] == FixedLE(n, 2) + rest
            else if n <= 0xFFFF_FFFF then s[0] == 0xfe && s[1..] == FixedLE(n, 4) + rest
            else s[0] == 0xff && s[1..] == FixedLE(n, 8) + rest
  {
    var head, digits: bytes :=
      CompactSize(n)[0], CompactSize(n)[1..];
    assert CompactSize(n) == [head] + digits;
    Assoc3([head], digits, rest);
    SplitHead(s, head, digits + rest);
    if n < 0xfd {
      assert digits == [] && [] + rest == rest;
    } else {
      assert digits == if n <= 0xFFFF then FixedLE(n, 2) else if n <= 0xFFFF_FFFF then FixedLE(n, 4) else FixedLE(n, 8);
    }
  }

  lemma SplitHead(s: bytes, head: byte, tail: bytes)
    requires s != []
    ensures s == [head] + tail <==> s[0] == head && s[1..] == tail
  {
    if s == [head] + tail {
      assert s[1..] == tail;
    }
    assert s == [s[0]] + s[1..];
  }

  // ----- The cursor -----

  class Cursor {
    const input: bytes
    var offset: nat

    ghost predicate Valid()
      reads this
    {
      offset <= |input| <= USIZE_MAX
    }

    constructor (input: bytes)
      requires |input| <= USIZE_MAX
      ensures this.input == input && offset == 0 && Valid() && Rest() == input
    {
      this.input := input;
      offset := 0;
    }

    ghost function Rest(): bytes
      requires Valid()
      reads this
    {
      input[offset..]
    }

    method ReadU8() returns (r: Result<byte, Error>)
      requires Valid()
      modifies this
      ensures Valid() && Advanced(TakeByte(old(Rest())), r)
    {
      if offset >= |input| {
        return Err(InvalidPsbt);
      }
      r := Ok(input[offset]);
      offset := offset + 1;
    }

    method ReadSlice(len: nat) returns (r: Result<bytes, Error>)
      requires Valid()
      modifies this
      ensures Valid() && Advanced(Take(old(Rest()), len), r)
    {
      var end := offset + len;
      if end > USIZE_MAX || end > |input| {
        return Err(InvalidPsbt);
      }
      assert Rest()[..len] == input[offset..end] && Rest()[len..] == input[end..];
      r := Ok(input[offset..end]);
      offset := end;
    }

    method ReadCompactSize() returns (r: Result<nat, Error>)
      requires Valid()
      modifies this
      ensures Valid() && Advanced(TakeCompactSize(old(Rest())), r)
    {
      var first :- ReadU8();
      if first <= 0xfc {
        return Ok(first);
      } else if first == 0xfd {
        var raw :- ReadSlice(2);
        var value := FromLE(raw);
        if value < 0xfd {
          return Err(NonCanonicalCompactSize);
        }
        FixedFromLE(raw);
        Pow256Eight();
        return Ok(value);
      } else if first == 0xfe {
        var raw :- ReadSlice(4);
        var value := FromLE(raw);
        if value <= 0xFFFF {
          return Err(NonCanonicalCompactSize);
        }
        FixedFromLE(raw);
        Pow256Eight();
        return Ok(value);
      } else {
        var raw :- ReadSlice(8);
        var value := FromLE(raw);
        if value <= 0xFFFF_FFFF {
          return Err(NonCanonicalCompactSize);
        }
        if value > USIZE_MAX {
          return Err(InvalidCompactSize);
        }
        return Ok(value);
      }
    }

    method IsFinished() returns (finished: bool)
      requires Valid()
      ensures finished <==> Rest() == []
    {
      finished := offset == |input|;
    }

    /** The cursor stands behind the value when it was read. */
    ghost predicate Advanced<T>(read: Result<Read<T>, Error>, r: Result<T, Error>)
      requires Valid()
      reads this
    {
      match read
      case Ok(v) => r == Ok(v.value) && Rest() == v.rest
      case Err(e) => r == Err(e)
    }
  }

  /** `push_compact_size`, which stops at 32 bits. */
  method PushCompactSize(output: BoundedBytes, value: nat) returns (r: Result<Unit, Error>)
    requires output.Valid() && value <= U64_MAX
    modifies output`len, output.data
    ensures output.Valid()
    ensures if value > 0xFFFF_FFFF then r == Err(InvalidCompactSize) && output.AsSlice() == old(output.AsSlice())
            else if old(output.len) + |CompactSize(value)| <= output.data.Length
                 then r == Ok(Unit) && output.AsSlice() == old(output.AsSlice()) + CompactSize(value)
                 else && r == Err(CapacityExceeded)
                      && old(output.AsSlice()) <= output.AsSlice() <= old(output.AsSlice()) + CompactSize(value)
  {
    ghost var before := output.AsSlice();
    if value < 0xfd {
      r := output.Push(value, CapacityExceeded);
    } else if value <= 0xFFFF {
      Assoc3(before, [0xfd], FixedLE(value, 2));
      var _ :- output.Push(0xfd, CapacityExceeded);
      r := output.ExtendFromSlice(FixedLE(value, 2), CapacityExceeded);
    } else {
      if value > 0xFFFF_FFFF {
        return Err(InvalidCompactSize);
      }
      Assoc3(before, [0xfe], FixedLE(value, 4));
      var _ :- output.Push(0xfe, CapacityExceeded);
      r := output.ExtendFromSlice(FixedLE(value, 4), CapacityExceeded);
    }
  }
}
