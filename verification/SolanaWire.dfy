/** Reading and writing Solana's wire format: byte runs and compact-u16 lengths. */
module SolanaWire {
  import opened Bytes
  import opened ChainApi

  datatype Error =
    | ParserNotImplemented
    | MissingKey
    | InvalidMessage
    | UnsupportedHeader
    | UnsupportedAccounts
    | UnsupportedProgram
    | UnsupportedInstruction
    | NonCanonicalShortVec
    | ShortVecOverflow
    | TrailingBytes
    | SignerMismatch
    | UnexpectedCryptoResult
    | InvalidSignature
    | CapacityExceeded
    | ExecutionFinished

  // ----- Runs of bytes -----

  function TakeByte(s: bytes): Result<Read<byte>, Error> {
    if s == [] then Err(InvalidMessage) else Ok(Read(s[0], s[1..]))
  }

  function Take(s: bytes, n: nat): Result<Read<bytes>, Error> {
    if n > |s| then Err(InvalidMessage) else Ok(Read(s[..n], s[n..]))
  }

  lemma TakeByteIff(s: bytes, b: byte, rest: bytes)
    ensures TakeByte(s) == Ok(Read(b, rest)) <==> s == [b] + rest
  {
    if s != [] {
      assert s == [s[0]] + s[1..];
    }
    assert ([b] + rest)[1..] == rest;
  }

  lemma TakeIff(s: bytes, v: bytes, rest: bytes)
    ensures Take(s, |v|) == Ok(Read(v, rest)) <==> s == v + rest
  {
    if |v| <= |s| {
      assert s == s[..|v|] + s[|v|..];
    }
    assert (v + rest)[..|v|] == v && (v + rest)[|v|..] == rest;
  }

  // ----- Compact-u16 -----

  /** Seven bits a byte, least significant first, the high bit marking more. */
  function ShortVec(n: nat): (s: bytes)
    ensures s != []
  {
    if n < 0x80 then [n] else [n % 0x80 + 0x80] + ShortVec(n / 0x80)
  }

  /** Lengths on both sides of each step of the encoding. */
  lemma KnownShortVecs()
    ensures ShortVec(0x7f) == [0x7f] && ShortVec(0x80) == [0x80, 0x01] && ShortVec(0x3fff) == [0xff, 0x7f]
    ensures ShortVec(0x4000) == [0x80, 0x80, 0x01] && ShortVec(0xffff) == [0xff, 0xff, 0x03]
  {
  }

  /** The weight of the chunk at an index: `1 << (7 * index)`. */
  function Weight(index: nat): nat {
    if index == 0 then 1 else if index == 1 then 0x80 else 0x4000
  }

  /** The chunks from `index` on, behind those already gathered in `value`. */
  function TakeChunks(s: bytes, index: nat, value: nat): Result<Read<nat>, Error>
    decreases 3 - index
  {
    if index >= 3 then Err(ShortVecOverflow)
    else
      var first :- TakeByte(s);
      var chunk := first.value % 0x80;
      if index == 2 && chunk > 3 then Err(ShortVecOverflow)
      else if first.value >= 0x80 then TakeChunks(first.rest, index + 1, value + chunk * Weight(index))
      else if index > 0 && chunk == 0 then Err(NonCanonicalShortVec)
      else Ok(Read(value + chunk * Weight(index), first.rest))
  }

  function TakeShortVec(s: bytes): Result<Read<nat>, Error> {
    TakeChunks(s, 0, 0)
  }

  /** One past the largest number the chunks from an index on can add. */
  function Limit(index: nat): nat {
    if index == 0 then 0x1_0000 else if index == 1 then 0x200 else 4
  }

  lemma {:induction false} ChunksComplete(m: nat, rest: bytes, index: nat, value: nat)
    requires index < 3 && m < Limit(index) && (index > 0 ==> m > 0)
    ensures TakeChunks(ShortVec(m) + rest, index, value) == Ok(Read(value + m * Weight(index), rest))
    decreases 3 - index
  {
    var s := ShortVec(m) + rest;
    if m < 0x80 {
      TakeByteIff(s, m, rest);
    } else {
      var low := m % 0x80;
      Assoc3([low + 0x80], ShortVec(m / 0x80), rest);
      TakeByteIff(s, low + 0x80, ShortVec(m / 0x80) + rest);
      ChunksComplete(m / 0x80, rest, index + 1, value + low * Weight(index));
      Carry(m, index);
    }
  }

  /** Seven bits carried to the next chunk keep their weight. */
  lemma Carry(m: nat, index: nat)
    requires index < 2
    ensures m * Weight(index) == m % 0x80 * Weight(index) + m / 0x80 * Weight(index + 1)
  {
    assert m == m % 0x80 + m / 0x80 * 0x80;
    if index == 1 {
      assert Weight(1) == 0x80 && Weight(2) == 0x4000;
    }
  }

  lemma {:induction false} ChunksSound(s: bytes, index: nat, value: nat, n: nat, rest: bytes) returns (m: nat)
    requires index < 3 && TakeChunks(s, index, value) == Ok(Read(n, rest))
    ensures m < Limit(index) && (index > 0 ==> m > 0) && n == value + m * Weight(index)
    ensures s == ShortVec(m) + rest
    decreases 3 - index
  {
    var first, tail := s[0], s[1..];
    assert s == [first] + tail;
    var chunk := first % 0x80;
    if first < 0x80 {
      m := chunk;
    } else {
      assert index < 2;
      var high := ChunksSound(tail, index + 1, value + chunk * Weight(index), n, rest);
      m := chunk + high * 0x80;
      assert m / 0x80 == high && m % 0x80 == chunk;
      Carry(m, index);
      Assoc3([first], ShortVec(high), rest);
    }
  }

  /** A length is read exactly when the shortest encoding of a 16-bit number stands
      at the front. */
  lemma ShortVecIff(s: bytes, n: nat, rest: bytes)
    ensures TakeShortVec(s) == Ok(Read(n, rest)) <==> n <= 0xFFFF && s == ShortVec(n) + rest
  {
    if TakeShortVec(s) == Ok(Read(n, rest)) {
      var m := ChunksSound(s, 0, 0, n, rest);
    }
    if n <= 0xFFFF && s == ShortVec(n) + rest {
      ChunksComplete(n, rest, 0, 0);
    }
  }

  lemma SmallShortVec(s: bytes, n: nat, rest: bytes)
    requires n < 0x80
    ensures TakeShortVec(s) == Ok(Read(n, rest)) <==> s == [n] + rest
  {
    ShortVecIff(s, n, rest);
  }

  // ----- The cursor and the writer -----

  class Cursor {
    const input: bytes
    var offset: nat

    ghost predicate Valid()
      reads this
    {
      offset <= |input| <= USIZE_MAX
    }

    constructor (input: bytes)
      requires |input| <= USIZE_MAX
      ensures this.input == input && offset == 0 && Valid() && Rest() == input
    {
      this.input := input;
      offset := 0;
    }

    ghost function Rest(): bytes
      requires Valid()
      reads this
    {
      input[offset..]
    }

    /** The cursor stands behind the value when it was read. */
    ghost predicate Advanced<T>(read: Result<Read<T>, Error>, r: Result<T, Error>)
      requires Valid()
      reads this
    {
      match read
      case Ok(v) => r == Ok(v.value) && Rest() == v.rest
      case Err(e) => r == Err(e)
    }

    method ReadU8() returns (r: Result<byte, Error>)
      requires Valid()
      modifies this
      ensures Valid() && Advanced(TakeByte(old(Rest())), r)
    {
      if offset >= |input| {
        return Err(InvalidMessage);
      }
      r := Ok(input[offset]);
      offset := offset + 1;
    }

    method ReadArray(n: nat) returns (r: Result<bytes, Error>)
      requires Valid()
      modifies this
      ensures Valid() && Advanced(Take(old(Rest()), n), r)
    {
      var end := offset + n;
      if end > USIZE_MAX || end > |input| {
        return Err(InvalidMessage);
      }
      assert Rest()[..n] == input[offset..end] && Rest()[n..] == input[end..];
      r := Ok(input[offset..end]);
      offset := end;
    }

    /** `read_shortvec`; the chunks occupy different bits, so or-ing `chunk << shift`
        into the value adds the chunk times its weight. */
    method ReadShortVec() returns (r: Result<nat, Error>)
      requires Valid()
      modifies this
      ensures Valid() && Advanced(TakeShortVec(old(Rest())), r)
    {
      var value: nat, shift: nat := 0, 0;
      for index := 0 to 3
        invariant Valid() && shift == 7 * index
        invariant TakeChunks(Rest(), index, value) == TakeShortVec(old(Rest()))
      {
        var next :- ReadU8();
        var chunk: nat := next % 0x80;
        if shift == 14 && chunk > 3 {
          return Err(ShortVecOverflow);
        }
        value := value + chunk * Weight(shift / 7);
        if next < 0x80 {
          if index > 0 && chunk == 0 {
            return Err(NonCanonicalShortVec);
          }
          return Ok(value);
        }
        shift := shift + 7;
      }
      return Err(ShortVecOverflow);
    }

    method IsFinished() returns (finished: bool)
      requires Valid()
      ensures finished <==> Rest() == []
    {
      finished := offset == |input|;
    }
  }

  /** `push_shortvec`. */
  method PushShortVec(output: BoundedBytes, value: nat) returns (r: Result<Unit, Error>)
    requires output.Valid()
    modifies output`len, output.data
    ensures output.Valid()
    ensures if value > 0xFFFF then r == Err(ShortVecOverflow) && output.AsSlice() == old(output.AsSlice())
            else if old(output.len) + |ShortVec(value)| <= output.data.Length
                 then r == Ok(Unit) && output.AsSlice() == old(output.AsSlice()) + ShortVec(value)
                 else && r == Err(CapacityExceeded)
                      && old(output.AsSlice()) <= output.AsSlice() <= old(output.AsSlice()) + ShortVec(value)
  {
    if value > 0xFFFF {
      return Err(ShortVecOverflow);
    }
    ghost var before, pushed: bytes := output.AsSlice(), [];
    var remaining := value;
    while true
      invariant output.Valid() && remaining <= 0xFFFF && output.AsSlice() == before + pushed
      invariant ShortVec(value) == pushed + ShortVec(remaining)
      decreases remaining
    {
      var digit: byte := remaining % 0x80;
      remaining := remaining / 0x80;
      if remaining != 0 {
        digit := digit + 0x80;
        Assoc3(pushed, [digit], ShortVec(remaining));
      }
      Assoc3(before, pushed, [digit]);
      assert ShortVec(value) == pushed + [digit] + (if remaining == 0 then [] else ShortVec(remaining));
      PushedFits(before, pushed + [digit], if remaining == 0 then [] else ShortVec(remaining), ShortVec(value));
      var _ :- output.Push(digit, CapacityExceeded);
      pushed := pushed + [digit];
      if remaining == 0 {
        return Ok(Unit);
      }
    }
  }

  lemma PushedFits(before: bytes, pushed: bytes, rest: bytes, all: bytes)
    requires all == pushed + rest && pushed != []
    ensures before + pushed[..|pushed| - 1] <= before + all && |pushed| <= |all|
    ensures before <= before + pushed[..|pushed| - 1]
  {
  }
}
