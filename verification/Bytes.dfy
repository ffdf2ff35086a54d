/** Machine bytes, the result types the adapters return, and the number
    conversions (`to_be_bytes`, `from_le_bytes`, leading-zero stripping) that the
    codecs are built from. */
module Bytes {

  type byte = x: int | 0 <= x < 0x100
  type u16 = x: int | 0 <= x < 0x1_0000
  type u32 = x: int | 0 <= x < 0x1_0000_0000
  type u64 = x: int | 0 <= x < 0x1_0000_0000_0000_0000

  type bytes = seq<byte>

  /** `usize::MAX` on a 64-bit target. */
  const USIZE_MAX: nat := 0xFFFF_FFFF_FFFF_FFFF

  datatype Option<+T> = None | Some(value: T)

  datatype Result<+T, +E> = Ok(value: T) | Err(error: E) {
    predicate IsFailure() {
      Err?
    }

    function PropagateFailure<U>(): Result<U, E>
      requires Err?
    {
      Err(error)
    }

    function Extract(): T
      requires Ok?
    {
      value
    }
  }

  datatype Unit = Unit

  /** A value read from the front of a byte string, and the bytes left over. */
  datatype Read<+T> = Read(value: T, rest: bytes)

  lemma Assoc3<T>(a: seq<T>, b: seq<T>, c: seq<T>)
    ensures a + b + c == a + (b + c)
  {
  }

  lemma Assoc4(a: bytes, b: bytes, c: bytes, d: bytes)
    ensures a + b + c + d == a + (b + c + d)
  {
  }

  /** Where the parts of a concatenation are found in a string that starts with it. */
  lemma Parts(s: bytes, a: bytes, b: bytes, c: bytes)
    requires a + b + c <= s
    ensures |a| + |b| + |c| <= |s|
    ensures s[..|a|] == a
    ensures s[|a|..|a| + |b|] == b
    ensures s[|a| + |b|..|a| + |b| + |c|] == c
    ensures s[..|a| + |b| + |c|] == a + b + c
  {
    var t := a + b + c;
    assert s[..|t|] == t;
    assert t[..|a|] == a && t[|a|..|a| + |b|] == b && t[|a| + |b|..] == c;
  }

  // ----- Powers of 256 -----

  function Pow256(k: nat): (p: nat)
    ensures p > 0
  {
    if k == 0 then 1 else 256 * Pow256(k - 1)
  }

  lemma {:induction false} Pow256Monotone(i: nat, j: nat)
    requires i <= j
    ensures Pow256(i) <= Pow256(j)
    decreases j - i
  {
    if i < j {
      Pow256Monotone(i + 1, j);
    }
  }

  lemma Pow256Eight()
    ensures Pow256(1) == 0x100 && Pow256(2) == 0x1_0000 && Pow256(4) == 0x1_0000_0000
    ensures Pow256(8) == 0x1_0000_0000_0000_0000
  {
    assert Pow256(1) == 256 * Pow256(0);
    assert Pow256(2) == 256 * Pow256(1);
    assert Pow256(3) == 256 * Pow256(2);
    assert Pow256(4) == 256 * Pow256(3);
    assert Pow256(5) == 256 * Pow256(4);
    assert Pow256(6) == 256 * Pow256(5);
    assert Pow256(7) == 256 * Pow256(6);
    assert Pow256(8) == 256 * Pow256(7);
  }

  // ----- Big-endian numbers -----

  /** The number a big-endian byte string denotes. */
  function FromBE(s: bytes): nat {
    if s == [] then 0 else FromBE(s[..|s| - 1]) * 256 + s[|s| - 1]
  }

  /** The shortest big-endian byte string of a number; empty for zero. */
  function MinimalBE(n: nat): (s: bytes)
    ensures n > 0 ==> s != [] && s[0] != 0
    ensures n == 0 ==> s == []
  {
    if n == 0 then [] else MinimalBE(n / 256) + [n % 256]
  }

  /** `to_be_bytes` for a `k`-byte integer. */
  function FixedBE(n: nat, k: nat): (s: bytes)
    ensures |s| == k
  {
    if k == 0 then [] else FixedBE(n / 256, k - 1) + [n % 256]
  }

  lemma {:induction false} FromMinimalBE(n: nat)
    ensures FromBE(MinimalBE(n)) == n
  {
    if n > 0 {
      FromMinimalBE(n / 256);
      var s := MinimalBE(n);
      assert s[..|s| - 1] == MinimalBE(n / 256);
    }
  }

  lemma {:induction false} MinimalFromBE(s: bytes)
    requires s != [] ==> s[0] != 0
    ensures MinimalBE(FromBE(s)) == s
  {
    if |s| == 1 {
      assert FromBE(s[..0]) == 0;
      assert MinimalBE(FromBE(s)) == MinimalBE(0) + [s[0]];
    } else if |s| > 1 {
      MinimalFromBE(s[..|s| - 1]);
      assert FromBE(s) / 256 == FromBE(s[..|s| - 1]);
      assert FromBE(s) % 256 == s[|s| - 1];
    }
  }

  lemma {:induction false} FromFixedBE(n: nat, k: nat)
    requires n < Pow256(k)
    ensures FromBE(FixedBE(n, k)) == n
  {
    if k > 0 {
      FromFixedBE(n / 256, k - 1);
      var s := FixedBE(n, k);
      assert s[..|s| - 1] == FixedBE(n / 256, k - 1);
    }
  }

  lemma {:induction false} FromBEBound(s: bytes)
    ensures FromBE(s) < Pow256(|s|)
  {
    if s != [] {
      FromBEBound(s[..|s| - 1]);
    }
  }

  lemma {:induction false} FromBECons(b: byte, s: bytes)
    ensures FromBE([b] + s) == b * Pow256(|s|) + FromBE(s)
  {
    if s == [] {
      assert [b] + s == [b];
      assert FromBE([b][..0]) == 0;
    } else {
      var front := s[..|s| - 1];
      FromBECons(b, front);
      assert ([b] + s)[..|s|] == [b] + front;
      assert b * Pow256(|s|) == b * Pow256(|front|) * 256;
    }
  }

  lemma TimesPositive(a: nat, p: nat)
    requires a > 0
    ensures a * p >= p
  {
    assert a * p == (a - 1) * p + p;
  }

  /** A non-zero leading byte bounds the number from below. */
  lemma FromBELead(s: bytes)
    requires s != [] && s[0] != 0
    ensures Pow256(|s| - 1) <= FromBE(s)
  {
    var head, tail := s[0], s[1..];
    FromBECons(head, tail);
    assert [head] + tail == s;
    TimesPositive(head, Pow256(|tail|));
  }

  lemma MinimalBELength(n: nat, k: nat)
    requires n < Pow256(k)
    ensures |MinimalBE(n)| <= k
  {
    var s := MinimalBE(n);
    if |s| > k {
      FromMinimalBE(n);
      FromBELead(s);
      Pow256Monotone(k, |s| - 1);
    }
  }

  /** Numbers of equally long byte strings agree only when the strings do. */
  lemma {:induction false} FromBEInjective(s: bytes, t: bytes)
    requires |s| == |t| && FromBE(s) == FromBE(t)
    ensures s == t
  {
    if s != [] {
      var n := |s| - 1;
      assert FromBE(s) / 256 == FromBE(s[..n]) && FromBE(t) / 256 == FromBE(t[..n]);
      FromBEInjective(s[..n], t[..n]);
      assert s == s[..n] + [s[n]] && t == t[..n] + [t[n]];
    }
  }

  // ----- Leading zeros -----

  function Zeros(k: nat): (s: bytes)
    ensures |s| == k && forall i :: 0 <= i < k ==> s[i] == 0
  {
    seq(k, _ => 0)
  }

  /** The bytes from the first non-zero one on (`iter().position(|b| *b != 0)`). */
  function Strip(s: bytes): (t: bytes)
    ensures |t| <= |s|
    ensures t != [] ==> t[0] != 0
  {
    if s != [] && s[0] == 0 then Strip(s[1..]) else s
  }

  lemma {:induction false} FromBEStrip(s: bytes)
    ensures FromBE(Strip(s)) == FromBE(s)
  {
    if s != [] && s[0] == 0 {
      FromBEStrip(s[1..]);
      FromBECons(0, s[1..]);
      assert [0] + s[1..] == s;
    }
  }

  /** Stripping the leading zeros yields the shortest encoding of the number. */
  lemma StripIsMinimal(s: bytes)
    ensures Strip(s) == MinimalBE(FromBE(s))
  {
    FromBEStrip(s);
    MinimalFromBE(Strip(s));
  }

  /** `s` right-aligned in a zeroed array of `n` bytes. */
  function PadLeft(s: bytes, n: nat): (t: bytes)
    requires |s| <= n
    ensures |t| == n
  {
    Zeros(n - |s|) + s
  }

  lemma {:induction false} FromBEPad(k: nat, s: bytes)
    ensures FromBE(Zeros(k) + s) == FromBE(s)
  {
    if k == 0 {
      assert Zeros(0) + s == s;
    } else {
      FromBEPad(k - 1, s);
      FromBECons(0, Zeros(k - 1) + s);
      assert Zeros(k) + s == [0] + (Zeros(k - 1) + s);
    }
  }

  /** Padding back what was stripped restores the original bytes. */
  lemma {:induction false} PadStrip(s: bytes)
    ensures PadLeft(Strip(s), |s|) == s
  {
    if s != [] && s[0] == 0 {
      PadStrip(s[1..]);
      var k := |s| - |Strip(s[1..])|;
      assert Zeros(k) == [0] + Zeros(k - 1);
      assert s == [0] + s[1..];
    } else {
      assert Zeros(0) + s == s;
    }
  }

  lemma {:induction false} StripPad(k: nat, t: bytes)
    requires t != [] ==> t[0] != 0
    ensures Strip(Zeros(k) + t) == t
  {
    if k == 0 {
      assert Zeros(0) + t == t;
    } else {
      StripPad(k - 1, t);
      var s := Zeros(k) + t;
      assert s[0] == 0;
      assert s[1..] == Zeros(k - 1) + t;
      assert Strip(s) == Strip(s[1..]);
    }
  }

  // ----- Little-endian numbers -----

  function FromLE(s: bytes): nat {
    if s == [] then 0 else s[0] + 256 * FromLE(s[1..])
  }

  /** `to_le_bytes` for a `k`-byte integer. */
  function FixedLE(n: nat, k: nat): (s: bytes)
    ensures |s| == k
  {
    if k == 0 then [] else [n % 256] + FixedLE(n / 256, k - 1)
  }

  lemma {:induction false} FromFixedLE(n: nat, k: nat)
    requires n < Pow256(k)
    ensures FromLE(FixedLE(n, k)) == n
  {
    if k > 0 {
      FromFixedLE(n / 256, k - 1);
      assert FixedLE(n, k)[1..] == FixedLE(n / 256, k - 1);
    }
  }

  lemma {:induction false} FixedFromLE(s: bytes)
    ensures FromLE(s) < Pow256(|s|)
    ensures FixedLE(FromLE(s), |s|) == s
  {
    if s != [] {
      FixedFromLE(s[1..]);
      assert FromLE(s) % 256 == s[0] && FromLE(s) / 256 == FromLE(s[1..]);
    }
  }
}
