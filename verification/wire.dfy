/** Bytes, big-endian integers, and reading from a byte stream the way io.ReadFull does. */
module Wire {
  type Byte = b: int | 0 <= b < 256

  type Bytes = seq<Byte>

  const U8 := 0x100
  const U16 := 0x1_0000
  const U32 := 0x1_0000_0000
  const U64 := 0x1_0000_0000_0000_0000

  type Int16 = n: int | -0x8000 <= n < 0x8000
  type Int32 = n: int | -0x8000_0000 <= n < 0x8000_0000
  type Int64 = n: int | -0x8000_0000_0000_0000 <= n < 0x8000_0000_0000_0000
  type UInt16 = n: int | 0 <= n < 0x1_0000
  type UInt32 = n: int | 0 <= n < 0x1_0000_0000
  type UInt64 = n: int | 0 <= n < 0x1_0000_0000_0000_0000

  function Pow256(w: nat): nat {
    if w == 0 then 1 else 256 * Pow256(w - 1)
  }

  /** The low `w` bytes of `n`, most significant first. */
  function EncodeUint(n: nat, w: nat): (b: Bytes)
    ensures |b| == w
  {
    if w == 0 then [] else EncodeUint(n / 256, w - 1) + [n % 256]
  }

  function DecodeUint(b: Bytes): nat {
    if b == [] then 0 else DecodeUint(b[..|b| - 1]) * 256 + b[|b| - 1]
  }

  lemma {:induction false} UintRoundTrip(n: nat, w: nat)
    requires n < Pow256(w)
    ensures DecodeUint(EncodeUint(n, w)) == n
  {
    if w > 0 {
      UintRoundTrip(n / 256, w - 1);
      assert EncodeUint(n, w)[..w - 1] == EncodeUint(n / 256, w - 1);
    }
  }

  /** n >> 8k */
  function ShiftedBy(n: nat, k: nat): nat {
    if k == 0 then n else ShiftedBy(n / 256, k - 1)
  }

  /** Network byte order: byte `i` of `w` is what is left after shifting out the bytes behind it. */
  lemma {:induction false} BigEndian(n: nat, w: nat, i: nat)
    requires i < w
    ensures EncodeUint(n, w)[i] == ShiftedBy(n, w - 1 - i) % 256
  {
    if i < w - 1 {
      BigEndian(n / 256, w - 1, i);
    }
  }

  /** The bytes of a short and of a long integer, shifted and masked one by one. */
  function Word(n: nat): (b: Bytes)
    ensures |b| == 2
  {
    [n / 0x100 % 0x100, n % 0x100]
  }

  function Quad(n: nat): (b: Bytes)
    ensures |b| == 4
  {
    [n / 0x100_0000 % 0x100, n / 0x1_0000 % 0x100, n / 0x100 % 0x100, n % 0x100]
  }

  lemma TwoBytes(n: nat)
    ensures EncodeUint(n, 1) == [n % 256]
    ensures EncodeUint(n, 2) == Word(n)
  {
    assert EncodeUint(n / 256, 1) == [n / 256 % 256];
  }

  lemma FourBytes(n: nat)
    ensures EncodeUint(n, 4) == Quad(n)
  {
    var m := n / 0x1_0000;
    TwoBytes(m);
    assert n / 256 / 256 == m && m / 256 == n / 0x100_0000;
    assert EncodeUint(n / 256, 3) == EncodeUint(m, 2) + [n / 256 % 256];
  }

  lemma Widths()
    ensures Pow256(1) == U8 && Pow256(2) == U16 && Pow256(4) == U32 && Pow256(8) == U64
  {
    assert Pow256(3) == 0x100_0000;
    assert Pow256(5) == 0x100_0000_0000;
    assert Pow256(6) == 0x1_0000_0000_0000;
    assert Pow256(7) == 0x100_0000_0000_0000;
  }

  /** Conversion of a signed integer to an unsigned one of the same width, and back. */
  function Unsigned(n: int, modulus: nat): nat
    requires 0 <= n + modulus && n < modulus
  {
    if n < 0 then n + modulus else n
  }

  function Signed(n: nat, modulus: nat): int {
    if 2 * n >= modulus then n - modulus else n
  }

  lemma SignedRoundTrip(n: int, modulus: nat)
    requires 0 <= 2 * n + modulus && 2 * n < modulus
    ensures Signed(Unsigned(n, modulus), modulus) == n
  {}

  /**
   * How a read can fail. Panic stands for the program crashing: on a negative length, or on a heartbeat
   * with a payload. MethodArguments stands for what a method frame carries, which is not modelled.
   */
  datatype Fault = EOF | UnexpectedEOF | SyntaxError | FrameError | Panic | MethodArguments

  datatype Read<+T> = Got(value: T, rest: Bytes) | Bad(fault: Fault, rest: Bytes)

  /** All of `n` bytes; end of file only when there is not even the first. */
  function ReadFull(r: Bytes, n: nat): (res: Read<Bytes>)
    ensures res.Got? ==> |res.value| == n && res.value + res.rest == r
    ensures res.Bad? ==> res.rest == []
  {
    if n <= |r| then Got(r[..n], r[n..])
    else if r == [] then Bad(EOF, [])
    else Bad(UnexpectedEOF, [])
  }

  function ReadUint(r: Bytes, w: nat): (res: Read<nat>)
    ensures res.Got? ==> |res.rest| + w == |r|
    ensures res.Bad? ==> res.rest == []
  {
    match ReadFull(r, w)
    case Bad(fault, rest) => Bad(fault, rest)
    case Got(b, rest) => Got(DecodeUint(b), rest)
  }

  lemma FullRoundTrip(b: Bytes, suffix: Bytes)
    ensures ReadFull(b + suffix, |b|) == Got(b, suffix)
  {
    assert (b + suffix)[..|b|] == b && (b + suffix)[|b|..] == suffix;
  }

  lemma UintReadBack(n: nat, w: nat, suffix: Bytes)
    requires n < Pow256(w)
    ensures ReadUint(EncodeUint(n, w) + suffix, w) == Got(n, suffix)
  {
    FullRoundTrip(EncodeUint(n, w), suffix);
    UintRoundTrip(n, w);
  }

  /** A length of `w` bytes followed by as many bytes; a longer string is cut to what the length says. */
  function Prefixed(s: Bytes, w: nat): Bytes
    requires w == 1 || w == 4
  {
    var modulus := if w == 1 then U8 else U32;
    EncodeUint(|s| % modulus, w) + s[..|s| % modulus]
  }

  function ReadPrefixed(r: Bytes, w: nat): (res: Read<Bytes>)
    ensures res.Got? ==> |res.rest| + w + |res.value| == |r|
    ensures |res.rest| <= |r|
  {
    match ReadUint(r, w)
    case Bad(fault, rest) => Bad(fault, rest)
    case Got(n, rest) => ReadFull(rest, n)
  }

  /** Reading a prefixed string gives what was written of it: all of it, if it fits its length. */
  lemma PrefixedReadBack(s: Bytes, w: nat, suffix: Bytes)
    requires w == 1 || w == 4
    ensures var modulus := if w == 1 then U8 else U32;
            ReadPrefixed(Prefixed(s, w) + suffix, w) == Got(s[..|s| % modulus], suffix)
  {
    Widths();
    var modulus := if w == 1 then U8 else U32;
    var cut := s[..|s| % modulus];
    assert Prefixed(s, w) + suffix == EncodeUint(|s| % modulus, w) + (cut + suffix);
    UintReadBack(|s| % modulus, w, cut + suffix);
    FullRoundTrip(cut, suffix);
  }

  /** A short string is a byte for its length and then itself; a long one has four bytes for its length. */
  lemma LengthInFront(s: Bytes)
    ensures |s| < U8 ==> Prefixed(s, 1) == [|s|] + s
    ensures |s| < U32 ==> Prefixed(s, 4) == Quad(|s|) + s
  {
    hide EncodeUint, Quad;
    TwoBytes(|s| % U8);
    FourBytes(|s| % U32);
    if |s| < U8 {
      assert s[..|s|] == s;
    }
    if |s| < U32 {
      assert s[..|s|] == s;
    }
  }

  /** Too few bytes are an unexpected end, none at all is the end. */
  lemma TooFewBytes(r: Bytes, n: nat)
    requires |r| < n
    ensures ReadFull(r, n) == Bad(if r == [] then EOF else UnexpectedEOF, [])
  {}
}
