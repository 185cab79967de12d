/// 32-bit words, bytes and rotations: the C macros SM3_Rotl32 / SM4_Rotl32, the part selects of the
/// Verilog sources, and the big-endian byte order both sides of the serial link agree on.

module Words {

  type byte = bv8
  type word = bv32

  datatype Option<+T> = None | Some(value: T)

  // The C macro (((buf) << n) | ((buf) >> (32 - n))). A shift by the full width yields 0 here, so
  // rotation by 0 is the identity.
  function Rotl(x: word, n: bv6): word
    requires n <= 32
  {
    (x << n) | (x >> (32 - n))
  }

  // Named exclusive-ors, so that proofs can rewrite with their laws.
  function Xor(a: word, b: word): word { a ^ b }

  function Xor3(a: word, b: word, c: word): word { Xor(Xor(a, b), c) }

  function Xor5(a: word, b: word, c: word, d: word, e: word): word { Xor(Xor(Xor3(a, b, c), d), e) }

  function Join(b0: byte, b1: byte, b2: byte, b3: byte): word
  {
    ((b0 as word) << 24) | ((b1 as word) << 16) | ((b2 as word) << 8) | (b3 as word)
  }

  // Big-endian assembly of four bytes.
  function WordOf(b: seq<byte>): word
    requires |b| == 4
  {
    Join(b[0], b[1], b[2], b[3])
  }

  // Big-endian split of a word into four bytes.
  function BytesOf(w: word): (b: seq<byte>)
    ensures |b| == 4
  {
    [(w >> 24) as byte, ((w >> 16) & 0xff) as byte, ((w >> 8) & 0xff) as byte, (w & 0xff) as byte]
  }

  // The two directions of the byte order undo each other.
  lemma WordOfBytes(w: word)
    ensures WordOf(BytesOf(w)) == w
  {
    var b := BytesOf(w);
    assert b[0] == (w >> 24) as byte && b[1] == ((w >> 16) & 0xff) as byte;
    assert b[2] == ((w >> 8) & 0xff) as byte && b[3] == (w & 0xff) as byte;
  }

  // The disjoint bytes of a word may be added instead of or-ed.
  lemma JoinIsSum(b0: byte, b1: byte, b2: byte, b3: byte)
    ensures (((b0 as word) << 24) & 0xff000000) + (((b1 as word) << 16) & 0x00ff0000)
            + (((b2 as word) << 8) & 0x0000ff00) + ((b3 as word) & 0x000000ff) == Join(b0, b1, b2, b3)
  {
  }

  lemma JoinHigh(b0: byte, b1: byte, b2: byte, b3: byte)
    ensures (Join(b0, b1, b2, b3) >> 24) as byte == b0
    ensures ((Join(b0, b1, b2, b3) >> 16) & 0xff) as byte == b1
  {
  }

  lemma JoinLow(b0: byte, b1: byte, b2: byte, b3: byte)
    ensures ((Join(b0, b1, b2, b3) >> 8) & 0xff) as byte == b2
    ensures (Join(b0, b1, b2, b3) & 0xff) as byte == b3
  {
  }

  lemma BytesOfWord(b: seq<byte>)
    requires |b| == 4
    ensures BytesOf(WordOf(b)) == b
  {
    JoinHigh(b[0], b[1], b[2], b[3]);
    JoinLow(b[0], b[1], b[2], b[3]);
  }

  lemma XorComm(a: word, b: word)
    ensures Xor(a, b) == Xor(b, a)
  {
  }

  lemma XorCancel(a: word, b: word)
    ensures Xor(Xor(a, b), b) == a
  {
  }

  /// Single bits.

  function Bit(w: word, n: bv5): bool { (w >> n) & 1 == 1 }

  function And(a: word, b: word): word { a & b }

  function Or(a: word, b: word): word { a | b }

  function Not(a: word): word { !a }

  lemma AndBit(a: word, b: word, n: bv5)
    ensures Bit(And(a, b), n) == (Bit(a, n) && Bit(b, n))
  {
  }

  lemma OrBit(a: word, b: word, n: bv5)
    ensures Bit(Or(a, b), n) == (Bit(a, n) || Bit(b, n))
  {
  }

  lemma NotBit(a: word, n: bv5)
    ensures Bit(Not(a), n) == !Bit(a, n)
  {
  }

  lemma XorIsOrNotAnd(a: word, b: word)
    ensures Xor(a, b) == And(Or(a, b), Not(And(a, b)))
  {
  }

  lemma XorBit(a: word, b: word, n: bv5)
    ensures Bit(Xor(a, b), n) == (Bit(a, n) != Bit(b, n))
  {
    hide Xor, And, Or, Not, Bit;
    XorIsOrNotAnd(a, b);
    OrBit(a, b, n);
    AndBit(a, b, n);
    NotBit(And(a, b), n);
    AndBit(Or(a, b), Not(And(a, b)), n);
  }
}
