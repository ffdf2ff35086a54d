/** Compact ECDSA signatures and their strict DER form (BIP 66, "DER encoding
    reference"; BIP 146, "LOW_S"). */
module BitcoinDer {
  import opened Bytes
  import opened BitcoinWire

  const SECP256K1_HALF_ORDER: bytes := [
    0x7f, 0xff, 0xff, 0xff, 0xff, 0xff, 0xff, 0xff, 0xff, 0xff, 0xff, 0xff, 0xff, 0xff, 0xff, 0xff,
    0x5d, 0x57, 0x6e, 0x73, 0x57, 0xa4, 0x50, 0x1d, 0xdf, 0xe9, 0x2f, 0x46, 0x68, 0x1b, 0x20, 0xa0]

  /** The order of the group that secp256k1 generates. */
  const GROUP_ORDER: nat := 0xFFFFFFFF_FFFFFFFF_FFFFFFFF_FFFFFFFE_BAAEDCE6_AF48A03B_BFD25E8C_D0364141

  lemma HalfOrderIsHalf()
    ensures |SECP256K1_HALF_ORDER| == 32 && 2 * FromBE(SECP256K1_HALF_ORDER) + 1 == GROUP_ORDER
  {
    FourWords(SECP256K1_HALF_ORDER);
    HalfOrderWords();
    LowHalfOrderWords();
  }

  lemma FourWords(s: bytes)
    requires |s| == 32
    ensures FromBE(s) == ((WordAt(s, 0) * 0x1_0000_0000_0000_0000 + WordAt(s, 8)) * 0x1_0000_0000_0000_0000
                          + WordAt(s, 16)) * 0x1_0000_0000_0000_0000 + WordAt(s, 24)
  {
    FirstWords(s);
    NextWord(s, 16);
    NextWord(s, 24);
    assert s[..32] == s;
  }

  lemma FirstWords(s: bytes)
    requires |s| == 32
    ensures FromBE(s[..16]) == WordAt(s, 0) * 0x1_0000_0000_0000_0000 + WordAt(s, 8)
  {
    NextWord(s, 0);
    NextWord(s, 8);
    assert s[..0] == [];
  }

  lemma HalfOrderWords()
    ensures |SECP256K1_HALF_ORDER| == 32
    ensures WordAt(SECP256K1_HALF_ORDER, 0) == 0x7fffffff_ffffffff
    ensures WordAt(SECP256K1_HALF_ORDER, 8) == 0xffffffff_ffffffff
  {
  }

  lemma LowHalfOrderWords()
    ensures |SECP256K1_HALF_ORDER| == 32
    ensures WordAt(SECP256K1_HALF_ORDER, 16) == 0x5d576e73_57a4501d
    ensures WordAt(SECP256K1_HALF_ORDER, 24) == 0xdfe92f46_681b20a0
  {
  }

  /** The number eight bytes denote. */
  function Word(a: nat, b: nat, c: nat, d: nat, e: nat, f: nat, g: nat, h: nat): nat {
    ((((((a * 256 + b) * 256 + c) * 256 + d) * 256 + e) * 256 + f) * 256 + g) * 256 + h
  }

  function WordAt(s: bytes, k: nat): nat
    requires k + 8 <= |s|
  {
    Word(s[k], s[k + 1], s[k + 2], s[k + 3], s[k + 4], s[k + 5], s[k + 6], s[k + 7])
  }

  lemma NextWord(s: bytes, k: nat)
    requires k + 8 <= |s|
    ensures FromBE(s[..k + 8]) == FromBE(s[..k]) * 0x1_0000_0000_0000_0000 + WordAt(s, k)
  {
    NextDigit(s, k);
    NextDigit(s, k + 1);
    NextDigit(s, k + 2);
    NextDigit(s, k + 3);
    NextDigit(s, k + 4);
    NextDigit(s, k + 5);
    NextDigit(s, k + 6);
    NextDigit(s, k + 7);
  }

  lemma NextDigit(s: bytes, k: nat)
    requires k < |s|
    ensures FromBE(s[..k + 1]) == FromBE(s[..k]) * 256 + s[k]
  {
    assert s[..k + 1][..k] == s[..k];
  }

  // ----- Validity of a compact signature -----

  /** Slice comparison `a > b`: the first difference decides, then the length. */
  predicate Greater(a: bytes, b: bytes) {
    if b == [] then a != []
    else if a == [] then false
    else if a[0] != b[0] then a[0] > b[0]
    else Greater(a[1..], b[1..])
  }

  /** On equally long byte strings the slice comparison is the numeric one. */
  lemma {:induction false} GreaterIsNumeric(a: bytes, b: bytes)
    requires |a| == |b|
    ensures Greater(a, b) <==> FromBE(a) > FromBE(b)
  {
    if a != [] {
      var p := Pow256(|a| - 1);
      FromBECons(a[0], a[1..]);
      FromBECons(b[0], b[1..]);
      assert [a[0]] + a[1..] == a && [b[0]] + b[1..] == b;
      FromBEBound(a[1..]);
      FromBEBound(b[1..]);
      if a[0] == b[0] {
        GreaterIsNumeric(a[1..], b[1..]);
      } else if a[0] > b[0] {
        LeadDecides(a[0], b[0], p, FromBE(a[1..]), FromBE(b[1..]));
      } else {
        LeadDecides(b[0], a[0], p, FromBE(b[1..]), FromBE(a[1..]));
      }
    }
  }

  lemma LeadDecides(x: nat, y: nat, p: nat, lowX: nat, lowY: nat)
    requires x > y && lowX < p && lowY < p
    ensures x * p + lowX > y * p + lowY
  {
    assert x * p == y * p + (x - y) * p;
    TimesPositive(x - y, p);
  }

  predicate AllZero(s: bytes) {
    forall i :: 0 <= i < |s| ==> s[i] == 0
  }

  /** `validate_compact_signature`. */
  function ValidateCompact(signature: bytes): Result<Unit, Error>
    requires |signature| == 64
  {
    if AllZero(signature[..32]) || AllZero(signature[32..]) then Err(InvalidSignature)
    else if Greater(signature[32..], SECP256K1_HALF_ORDER) then Err(InvalidSignature)
    else Ok(Unit)
  }

  lemma {:induction false} ZeroIffAllZero(s: bytes)
    ensures AllZero(s) <==> FromBE(s) == 0
    ensures AllZero(s) <==> Strip(s) == []
  {
    if s != [] {
      ZeroIffAllZero(s[1..]);
      FromBECons(s[0], s[1..]);
      assert [s[0]] + s[1..] == s;
      if s[0] == 0 {
        assert AllZero(s) <==> AllZero(s[1..]) by {
          assert forall i :: 0 < i < |s| ==> s[i] == s[1..][i - 1];
          assert forall i :: 0 <= i < |s| - 1 ==> s[1..][i] == s[i + 1];
        }
      } else {
        TimesPositive(s[0], Pow256(|s| - 1));
      }
    }
  }

  /** A compact signature is valid exactly when both halves are non-zero and the
      second one, as a number, is at most half the group order. */
  lemma ValidIffLowS(signature: bytes)
    requires |signature| == 64
    ensures ValidateCompact(signature).Ok? <==>
            && FromBE(signature[..32]) != 0 && FromBE(signature[32..]) != 0
            && FromBE(signature[32..]) <= FromBE(SECP256K1_HALF_ORDER)
  {
    ZeroIffAllZero(signature[..32]);
    ZeroIffAllZero(signature[32..]);
    GreaterIsNumeric(signature[32..], SECP256K1_HALF_ORDER);
  }

  // ----- DER integers -----

  /** `der_integer`: the significant bytes, with a zero before a high bit. */
  function DerInteger(value: bytes): (r: bytes)
    requires |value| == 32 && !AllZero(value)
    ensures 1 <= |r| <= 33
  {
    ZeroIffAllZero(value);
    var significant := Strip(value);
    if significant[0] >= 0x80 then [0] + significant else significant
  }

  /** `decode_der_integer` into 32 bytes. */
  function DecodeDerInteger(value: bytes): (r: Result<bytes, Error>)
    ensures r.Ok? ==> |r.value| == 32
  {
    if value == [] || |value| > 33 then Err(InvalidSignature)
    else if |value| == 33 then
      if value[0] != 0 || value[1] < 0x80 then Err(InvalidSignature)
      else Ok(value[1..])
    else if value[0] == 0 && |value| > 1 && value[1] < 0x80 then Err(InvalidSignature)
    else if value[0] >= 0x80 then Err(InvalidSignature)
    else Ok(PadLeft(value, 32))
  }

  /** On non-zero integers the two are inverse to each other. */
  lemma DerIntegerIff(value: bytes, half: bytes)
    requires |half| == 32 && !AllZero(half)
    ensures DecodeDerInteger(value) == Ok(half) <==> value == DerInteger(half)
  {
    if DecodeDerInteger(value) == Ok(half) {
      DecodedIsEncoded(value, half);
    }
    EncodedIsDecoded(half);
  }

  lemma EncodedIsDecoded(half: bytes)
    requires |half| == 32 && !AllZero(half)
    ensures DecodeDerInteger(DerInteger(half)) == Ok(half)
  {
    ZeroIffAllZero(half);
    PadStrip(half);
    var significant := Strip(half);
    var k := 32 - |significant|;
    if significant[0] >= 0x80 {
      if k > 0 {
        assert Zeros(k) == Zeros(k - 1) + [0];
        Assoc3(Zeros(k - 1), [0], significant);
      } else {
        assert Zeros(0) + significant == significant;
        assert ([0] + significant)[1..] == significant;
      }
    }
  }

  lemma DecodedIsEncoded(value: bytes, half: bytes)
    requires DecodeDerInteger(value) == Ok(half) && !AllZero(half)
    ensures value == DerInteger(half)
  {
    ZeroIffAllZero(half);
    if |value| == 33 {
      assert Strip(half) == half;
      assert value == [value[0]] + value[1..];
    } else if value[0] != 0 {
      StripPad(32 - |value|, value);
    } else {
      var k, tail := 32 - |value|, value[1..];
      assert value == [0] + tail;
      assert Zeros(k + 1) == Zeros(k) + [0];
      Assoc3(Zeros(k), [0], tail);
      StripPad(k + 1, tail);
    }
  }

  // ----- DER signatures -----

  /** A tagged integer body. */
  function Tagged(v: bytes): bytes
    requires |v| < 0x100
  {
    [0x02, |v|] + v
  }

  function TakeTagged(s: bytes): Result<Read<bytes>, Error> {
    var tag :- TakeByte(s);
    if tag.value != 0x02 then Err(InvalidSignature)
    else
      var len :- TakeByte(tag.rest);
      Take(len.rest, len.value)
  }

  lemma TakeTaggedIff(s: bytes, v: bytes, rest: bytes)
    ensures TakeTagged(s) == Ok(Read(v, rest)) <==> |v| < 0x100 && s == Tagged(v) + rest
  {
    if |v| < 0x100 && s == Tagged(v) + rest {
      Assoc3([0x02, |v|], v, rest);
      assert s[1..] == [|v|] + (v + rest);
      TakeByteFront(|v|, v + rest);
      TakeFront(v, rest);
    }
    if TakeTagged(s) == Ok(Read(v, rest)) {
      var tail := s[1..];
      assert s == [0x02] + tail && tail == [tail[0]] + tail[1..];
      assert tail[1..] == v + rest;
      assert s == [0x02, |v|] + (v + rest);
      Assoc3([0x02, |v|], v, rest);
    }
  }

  /** The DER sequence of two encoded integers. */
  function DerSequence(r: bytes, s: bytes): (der: bytes)
    requires |r| <= 33 && |s| <= 33
    ensures |der| == 6 + |r| + |s|
  {
    [0x30, 4 + |r| + |s|] + (Tagged(r) + Tagged(s))
  }

  /** `encode_der_signature`. */
  function EncodeDer(signature: bytes): (r: Result<bytes, Error>)
    requires |signature| == 64
    ensures r.Ok? ==> |r.value| <= 72
  {
    var _ :- ValidateCompact(signature);
    Ok(DerSequence(DerInteger(signature[..32]), DerInteger(signature[32..])))
  }

  /** The two integers inside a DER sequence. */
  function SplitDer(der: bytes): Result<(bytes, bytes), Error> {
    var tag :- TakeByte(der);
    if tag.value != 0x30 then Err(InvalidSignature)
    else
      var len :- TakeByte(tag.rest);
      if len.value + 2 != |der| then Err(InvalidSignature)
      else
        var r :- TakeTagged(len.rest);
        var s :- TakeTagged(r.rest);
        if s.rest != [] then Err(InvalidSignature) else Ok((r.value, s.value))
  }

  /** `decode_der_signature`. */
  function DecodeDer(der: bytes): (r: Result<bytes, Error>)
    ensures r.Ok? ==> |r.value| == 64
  {
    var parts :- SplitDer(der);
    var r :- DecodeDerInteger(parts.0);
    var s :- DecodeDerInteger(parts.1);
    var _ :- ValidateCompact(r + s);
    Ok(r + s)
  }

  lemma SplitDerIff(der: bytes, r: bytes, s: bytes)
    requires |r| <= 33 && |s| <= 33
    ensures SplitDer(der) == Ok((r, s)) <==> der == DerSequence(r, s)
  {
    var body := Tagged(r) + Tagged(s);
    assert Tagged(s) + [] == Tagged(s);
    if der == DerSequence(r, s) {
      assert der[1..] == [4 + |r| + |s|] + body && der[1..][1..] == body;
      TakeTaggedIff(body, r, Tagged(s));
      TakeTaggedIff(Tagged(s), s, []);
    }
    if SplitDer(der) == Ok((r, s)) {
      var tail := der[1..];
      var inner := tail[1..];
      var after := TakeTagged(inner).value.rest;
      TakeTaggedIff(inner, r, after);
      TakeTaggedIff(after, s, []);
      assert der == [0x30] + tail && tail == [tail[0]] + inner;
      assert der == [0x30, tail[0]] + inner;
    }
  }

  /** Two signatures and their DER forms: small halves, and an r whose leading bit is set. */
  lemma KnownSignatures()
    ensures EncodeDer(Zeros(31) + [1] + (Zeros(31) + [2])) == Ok([0x30, 6, 0x02, 1, 1, 0x02, 1, 2])
    ensures EncodeDer(Zeros(31) + [0x80] + (Zeros(31) + [2])) == Ok([0x30, 7, 0x02, 2, 0, 0x80, 0x02, 1, 2])
  {
    KnownSignature(1, [1]);
    KnownSignature(0x80, [0, 0x80]);
    assert [0x30, 5 + 1, 0x02, 1] + [1] + [0x02, 1, 2] == [0x30, 6, 0x02, 1, 1, 0x02, 1, 2];
    assert [0x30, 5 + 2, 0x02, 2] + [0, 0x80] + [0x02, 1, 2] == [0x30, 7, 0x02, 2, 0, 0x80, 0x02, 1, 2];
  }

  lemma KnownSignature(r: byte, digits: bytes)
    requires r > 0 && digits == if r < 0x80 then [r] else [0, r]
    ensures EncodeDer(Zeros(31) + [r] + (Zeros(31) + [2])) == Ok([0x30, 5 + |digits|, 0x02, |digits|] + digits + [0x02, 1, 2])
  {
    var a, b := Zeros(31) + [r], Zeros(31) + [2];
    assert (a + b)[..32] == a && (a + b)[32..] == b && a[31] == r && b[31] == 2;
    assert b[0] == 0 && !Greater(b, SECP256K1_HALF_ORDER);
    StripPad(31, [r]);
    StripPad(31, [2]);
    assert DerInteger(a) == digits && DerInteger(b) == [2];
    assert ValidateCompact(a + b).Ok?;
    assert EncodeDer(a + b) == Ok(DerSequence(digits, [2]));
    assert DerSequence(digits, [2]) == [0x30, 5 + |digits|, 0x02, |digits|] + digits + [0x02, 1, 2];
  }

  /** A DER string decodes to a compact signature exactly when that signature
      encodes to the string. */
  lemma DerBijection(der: bytes, signature: bytes)
    requires |signature| == 64
    ensures DecodeDer(der) == Ok(signature) <==> EncodeDer(signature) == Ok(der)
  {
    var hr, hs := signature[..32], signature[32..];
    assert signature == hr + hs;
    if ValidateCompact(signature).Ok? {
      var r, s := DerInteger(hr), DerInteger(hs);
      SplitDerIff(der, r, s);
      DerIntegerIff(r, hr);
      DerIntegerIff(s, hs);
      if DecodeDer(der) == Ok(signature) {
        var parts := SplitDer(der).value;
        var a, b := DecodeDerInteger(parts.0).value, DecodeDerInteger(parts.1).value;
        assert (a + b)[..32] == a && (a + b)[32..] == b;
        DerIntegerIff(parts.0, hr);
        DerIntegerIff(parts.1, hs);
      }
    }
  }
}
