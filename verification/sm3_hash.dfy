/// SM3_nice as a whole: the padding it builds, how that differs from section 5.2 of GB/T 32905-2016, and the
/// fold of the compression function over the padded buffer.

module Sm3Hash {
  import opened Words
  import opened Sm3

  const UINT_RANGE: nat := 0x1_0000_0000

  // The unsigned length up to which 'len + 1 + 8 + 64' does not wrap; beyond it the buffer is too small.
  const LENGTHS: nat := UINT_RANGE - 73

  function ByteOf(x: nat): byte
    requires x < 256
  {
    x as byte
  }

  function ZeroBytes(n: nat): (z: seq<byte>)
    ensures |z| == n && forall i :: 0 <= i < n ==> z[i] == 0
  {
    seq(n, i => 0)
  }

  function BigEndian(x: nat, n: nat): (b: seq<byte>)
    ensures |b| == n
  {
    if n == 0 then [] else BigEndian(x / 256, n - 1) + [ByteOf(x % 256)]
  }

  // x >> (8 * i)
  function ShiftedRight(x: nat, i: nat): nat
  {
    if i == 0 then x else ShiftedRight(x / 256, i - 1)
  }

  lemma {:induction false} BigEndianAt(x: nat, n: nat, i: nat)
    requires i < n
    ensures BigEndian(x, n)[n - 1 - i] == ByteOf(ShiftedRight(x, i) % 256)
  {
    hide ByteOf;
    if i > 0 {
      BigEndianAt(x / 256, n - 1, i - 1);
    }
  }

  lemma SmallBytes(q: nat)
    requires q < 8
    ensures ByteOf(q) == 0 <==> q == 0
  {
    match q
    case 0 =>
    case 1 =>
    case 2 =>
    case 3 =>
    case 4 =>
    case 5 =>
    case 6 =>
    case _ => assert q == 7;
  }

  // Up to 2^35 the fourth byte is what lies above 2^32.
  lemma FourthByte(x: nat)
    requires x < 8 * UINT_RANGE
    ensures BigEndian(x, 8)[3] == 0 <==> x < UINT_RANGE
  {
    hide ByteOf, BigEndian;
    BigEndianAt(x, 8, 4);
    var q := ShiftedRight(x, 4);
    assert q == x / 256 / 256 / 256 / 256 by {
      assert ShiftedRight(x, 4) == ShiftedRight(x / 256, 3);
      assert ShiftedRight(x / 256, 3) == ShiftedRight(x / 256 / 256, 2);
      assert ShiftedRight(x / 256 / 256, 2) == ShiftedRight(x / 256 / 256 / 256, 1);
    }
    SmallBytes(q);
  }

  /// Padding.

  function Blocks(len: nat): nat { (len + 1 + 8 + 64) / 64 }

  // What SM3_nice builds: the 32-bit product of the length by 8 goes into the last eight bytes.
  function CodePad(m: seq<byte>): (p: seq<byte>)
    ensures |p| == 64 * Blocks(|m|)
  {
    m + [0x80] + ZeroBytes(64 * Blocks(|m|) - |m| - 9) + BigEndian(8 * |m| % UINT_RANGE, 8)
  }

  // Section 5.2: a bit 1, the fewest bits 0 that leave 448 modulo 512, and the bit length in 64 bits.
  function StandardPad(m: seq<byte>): seq<byte>
  {
    m + [0x80] + ZeroBytes((55 - |m|) % 64) + BigEndian(8 * |m|, 8)
  }

  // k zero bits after the bit 1 leave 448 modulo 512.
  predicate Fills(len: nat, k: nat) { (8 * len + 1 + k) % 512 == 448 }

  // The bits 0 after the bit 1 are the seven left in its byte and the zero bytes.
  lemma StandardPadIsShortest(len: nat)
    ensures Fills(len, 7 + 8 * ((55 - len) % 64))
    ensures forall j: nat :: j < 7 + 8 * ((55 - len) % 64) ==> !Fills(len, j)
  {
    var k: int := 7 + 8 * ((55 - len) % 64);
    assert 8 * len + 1 + k == 512 * ((len + 8 + (55 - len) % 64) / 64) + 448 by {
      assert (len + 8 + (55 - len) % 64) % 64 == 63;
    }
    forall j: nat | j < k ensures !Fills(len, j) {
      assert k - j < 512;
    }
  }

  lemma PadLengths(len: nat)
    ensures 64 * Blocks(len) - len - 9 == (55 - len) % 64 + if len % 64 == 55 then 64 else 0
  {
  }

  // The buffer is the standard's exactly for lengths below 2^29 that are not 55 modulo 64.
  lemma PadMeetsStandard(m: seq<byte>)
    requires |m| < LENGTHS
    ensures CodePad(m) == StandardPad(m) <==> |m| % 64 != 55 && |m| < 0x2000_0000
  {
    hide BigEndian, ZeroBytes;
    PadLengths(|m|);
    var c, s := CodePad(m), StandardPad(m);
    if c == s {
      assert c[|c| - 8..] == BigEndian(8 * |m| % UINT_RANGE, 8) && s[|s| - 8..] == BigEndian(8 * |m|, 8);
      FourthByte(8 * |m| % UINT_RANGE);
      FourthByte(8 * |m|);
    }
  }

  // At 55 modulo 64 the code adds one block of zeros more than the standard.
  lemma ExtraBlock(m: seq<byte>)
    requires |m| < LENGTHS
    ensures |CodePad(m)| == |StandardPad(m)| + if |m| % 64 == 55 then 64 else 0
  {
    PadLengths(|m|);
  }

  lemma PadAt(m: seq<byte>, i: nat)
    requires |m| <= i < |CodePad(m)| - 8
    ensures CodePad(m)[i] == if i == |m| then 0x80 else 0
  {
  }

  // Different messages have different buffers, wrapped length or not.
  lemma PadIsInjective(m: seq<byte>, n: seq<byte>)
    requires CodePad(m) == CodePad(n)
    ensures m == n
  {
    hide CodePad;
    PadMarks(m);
    PadMarks(n);
    if |m| < |n| {
      PadAt(m, |n|);
      PadAt(n, |n|);
    } else if |n| < |m| {
      PadAt(m, |m|);
      PadAt(n, |m|);
    }
    assert m == CodePad(m)[..|m|] && n == CodePad(n)[..|n|];
  }

  lemma PadMarks(m: seq<byte>)
    ensures |m| < |CodePad(m)| - 8 && CodePad(m)[..|m|] == m
  {
  }

  method Pad(message: array<byte>) returns (buf: array<byte>)
    requires message.Length < LENGTHS
    ensures fresh(buf) && buf[..] == CodePad(message[..])
  {
    hide BigEndian, ShiftedRight, ByteOf;
    var len, num := message.Length, (message.Length + 1 + 8 + 64) / 64;
    buf := new byte[num * 64](i => 0);
    for i := 0 to len
      invariant forall k :: 0 <= k < i ==> buf[k] == message[k]
      invariant forall k :: i <= k < buf.Length ==> buf[k] == 0
    {
      buf[i] := message[i];
    }
    buf[len] := 0x80;
    ghost var head := buf[..num * 64 - 8];
    var bits := len * 8 % UINT_RANGE;
    for i := 0 to 8
      invariant buf[..num * 64 - 8] == head
      invariant forall k :: 0 <= k < i ==> buf[num * 64 - 1 - k] == ByteOf(ShiftedRight(bits, k) % 256)
    {
      buf[num * 64 - i - 1] := ByteOf(ShiftedRight(bits, i) % 256);
      assert buf[..num * 64 - 8] == head;
    }
    LastEight(buf[num * 64 - 8..], bits);
    assert head == message[..] + [0x80] + ZeroBytes(num * 64 - len - 9);
    assert buf[..] == head + buf[num * 64 - 8..];
  }

  lemma LastEight(b: seq<byte>, x: nat)
    requires |b| == 8 && forall k :: 0 <= k < 8 ==> b[7 - k] == ByteOf(ShiftedRight(x, k) % 256)
    ensures b == BigEndian(x, 8)
  {
    forall k | 0 <= k < 8 ensures b[k] == BigEndian(x, 8)[k] {
      BigEndianAt(x, 8, 7 - k);
      assert b[7 - (7 - k)] == b[k];
    }
  }

  /// The fold.

  function Constants(): seq<word> { seq(64, (j: nat) => Constant(j)) }

  function Expanded(block: seq<byte>): seq<word>
    requires |block| == 64
  {
    seq(68, j requires 0 <= j < 68 => W(block, j))
  }

  function ExpandedPrime(block: seq<byte>): seq<word>
    requires |block| == 64
  {
    seq(64, j requires 0 <= j < 64 => WPrime(block, j))
  }

  function Iterate(p: seq<byte>, n: nat): State
    requires 64 * n <= |p|
  {
    if n == 0 then IV
    else
      var block := p[64 * (n - 1)..64 * (n - 1) + 64];
      Compress(Iterate(p, n - 1), Constants(), Expanded(block), ExpandedPrime(block))
  }

  function Digest(p: seq<byte>): State { Iterate(p, |p| / 64) }

  lemma {:induction false} IteratePrefix(p: seq<byte>, b: seq<byte>, n: nat)
    requires 64 * n <= |p|
    ensures Iterate(p + b, n) == Iterate(p, n)
  {
    hide Compress, Expanded, ExpandedPrime, Constants;
    if n > 0 {
      IteratePrefix(p, b, n - 1);
      assert (p + b)[64 * (n - 1)..64 * (n - 1) + 64] == p[64 * (n - 1)..64 * (n - 1) + 64];
    }
  }

  // The blocks go in from the first to the last.
  lemma DigestAppends(p: seq<byte>, b: seq<byte>)
    requires |p| % 64 == 0 && |b| == 64
    ensures Digest([]) == IV
    ensures Digest(p + b) == Compress(Digest(p), Constants(), Expanded(b), ExpandedPrime(b))
  {
    hide Compress, Expanded, ExpandedPrime, Constants;
    var n := |p| / 64;
    IteratePrefix(p, b, n);
    assert (p + b)[64 * n..64 * n + 64] == b;
  }

  method OneBlock(buf: array<byte>, at: nat, v: array<word>, t: array<word>, w68: array<word>, w64: array<word>)
    requires at + 64 <= buf.Length
    requires v.Length == 8 && t.Length == 64 && w68.Length == 68 && w64.Length == 64
    requires v != t && v != w68 && v != w64 && w68 != w64 && t != w68 && t != w64
    requires t[..] == Constants()
    modifies v, w68, w64
    ensures var block := buf[at..at + 64];
      StateOf(v[..]) == Compress(StateOf(old(v[..])), Constants(), Expanded(block), ExpandedPrime(block))
  {
    hide W, WPrime, Compress, StateOf, Constants;
    MessageExt(buf, at, w68, w64);
    assert w68[..] == Expanded(buf[at..at + 64]) && w64[..] == ExpandedPrime(buf[at..at + 64]);
    Cf(v, t, w68, w64);
  }

  method SetIV(v: array<word>)
    requires v.Length == 8
    modifies v
    ensures StateOf(v[..]) == IV
  {
    v[0], v[1], v[2], v[3] := IV.a, IV.b, IV.c, IV.d;
    v[4], v[5], v[6], v[7] := IV.e, IV.f, IV.g, IV.h;
  }

  // The int block index i is multiplied by 64: the last block must start below 2^31.
  const INDEXED: nat := 0x8000_0000 - 9

  lemma BlocksAreIndexed(len: nat)
    ensures len < INDEXED <==> 64 * (Blocks(len) - 1) < 0x8000_0000
  {
  }

  // The blocks of the buffer, one after the other.
  method Fold(buf: array<byte>, t: array<word>, v: array<word>)
    requires buf.Length % 64 == 0 && v.Length == 8 && t.Length == 64 && v != t && t[..] == Constants()
    requires StateOf(v[..]) == IV && buf.Length <= 0x8000_0000
    modifies v
    ensures StateOf(v[..]) == Digest(buf[..])
  {
    hide StateOf, Compress, Expanded, ExpandedPrime, Constants;
    var num := buf.Length / 64;
    var w68, w64 := new word[68](i => 0), new word[64](i => 0);
    var i := 0;
    while i < num
      invariant 0 <= i <= num && t[..] == Constants()
      invariant StateOf(v[..]) == Iterate(buf[..], i)
    {
      assert i * 64 < 0x8000_0000;
      OneBlock(buf, i * 64, v, t, w68, w64);
      i := i + 1;
      assert buf[..][64 * (i - 1)..64 * (i - 1) + 64] == buf[64 * (i - 1)..64 * (i - 1) + 64];
    }
  }

  method Sm3Nice(message: array<byte>, t: array<word>, v: array<word>)
    requires message.Length < INDEXED && v.Length == 8 && t.Length == 64 && v != t
    modifies t, v
    ensures StateOf(v[..]) == Digest(CodePad(message[..]))
  {
    hide StateOf, CodePad, Digest;
    var buf := Pad(message);
    BlocksAreIndexed(message.Length);
    TInit(t);
    assert t[..] == Constants();
    hide Constants;
    SetIV(v);
    Fold(buf, t, v);
  }
}
