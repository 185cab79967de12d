/// SM3_nice: message expansion, compression and padding, against sections 5.2 and 5.3 of GB/T 32905-2016.

module Sm3 {
  import opened BitValues
  import opened Rotation
  import opened Words
  import opened NiceReference
  import Mixing

  datatype State = State(a: word, b: word, c: word, d: word, e: word, f: word, g: word, h: word)

  const IV := State(0x7380166F, 0x4914B2B9, 0x172442D7, 0xDA8A0600, 0xA96F30BC, 0x163138AA, 0xE38DEE4D, 0xB0FB0E4E)

  function StateOf(s: seq<word>): State
    requires |s| == 8
  {
    State(s[0], s[1], s[2], s[3], s[4], s[5], s[6], s[7])
  }

  function Constant(j: nat): word { if j < 16 then 0x79CC4519 else 0x7A879D8A }

  function FF(x: word, y: word, z: word, j: nat): word
  {
    if j <= 15 then Xor3(x, y, z) else if j <= 63 then Or(Or(And(x, y), And(x, z)), And(y, z)) else 0
  }

  function GG(x: word, y: word, z: word, j: nat): word
  {
    if j <= 15 then Xor3(x, y, z) else if j <= 63 then Or(And(x, y), And(Not(x), z)) else 0
  }

  // From round 16 on FF is the bitwise majority.
  lemma FFIsMajority(x: word, y: word, z: word, j: nat, n: bv5)
    requires 16 <= j <= 63
    ensures Bit(FF(x, y, z, j), n) <==>
            (if Bit(x, n) then Bit(y, n) || Bit(z, n) else Bit(y, n) && Bit(z, n))
  {
    hide Bit, And, Or;
    AndBit(x, y, n);
    AndBit(x, z, n);
    AndBit(y, z, n);
    OrBit(And(x, y), And(x, z), n);
    OrBit(Or(And(x, y), And(x, z)), And(y, z), n);
  }

  // And GG chooses between its last two operands by its first.
  lemma GGIsChoice(x: word, y: word, z: word, j: nat, n: bv5)
    requires 16 <= j <= 63
    ensures Bit(GG(x, y, z, j), n) <==> if Bit(x, n) then Bit(y, n) else Bit(z, n)
  {
    hide Bit, And, Or, Not;
    NotBit(x, n);
    AndBit(x, y, n);
    AndBit(Not(x), z, n);
    OrBit(And(x, y), And(Not(x), z), n);
  }

  // Before that both are the bitwise parity.
  lemma FFGGAreParity(x: word, y: word, z: word, j: nat, n: bv5)
    requires j <= 15
    ensures FF(x, y, z, j) == GG(x, y, z, j)
    ensures Bit(FF(x, y, z, j), n) <==> ((Bit(x, n) != Bit(y, n)) != Bit(z, n))
  {
    hide Bit, Xor;
    XorBit(x, y, n);
    XorBit(Xor(x, y), z, n);
  }

  function Add(a: word, b: word): word { a + b }

  function Sub(a: word, b: word): word { a - b }

  function Add4(a: word, b: word, c: word, d: word): word { Add(Add(Add(a, b), c), d) }

  /// Message expansion, section 5.3.2.

  function W(block: seq<byte>, j: nat): word
    requires |block| == 64
    decreases j
  {
    if j < 16 then Join(block[4 * j], block[4 * j + 1], block[4 * j + 2], block[4 * j + 3])
    else
      Xor3(SM3P1(Xor3(W(block, j - 16), W(block, j - 9), Rotl(W(block, j - 3), 15))),
           Rotl(W(block, j - 13), 7),
           W(block, j - 6))
  }

  function WPrime(block: seq<byte>, j: nat): word
    requires |block| == 64
  {
    Xor(W(block, j), W(block, j + 4))
  }

  lemma MaskedJoin(b0: byte, b1: byte, b2: byte, b3: byte)
    ensures ((((b0 as word) << 24) & 0xFF000000) | (((b1 as word) << 16) & 0x00FF0000)
             | (((b2 as word) << 8) & 0x0000FF00) | ((b3 as word) & 0x000000FF)) == Join(b0, b1, b2, b3)
  {
  }

  method LoadWord(buf: array<byte>, at: nat) returns (w: word)
    requires at + 4 <= buf.Length
    ensures w == Join(buf[at], buf[at + 1], buf[at + 2], buf[at + 3])
  {
    MaskedJoin(buf[at], buf[at + 1], buf[at + 2], buf[at + 3]);
    w := (((buf[at] as word) << 24) & 0xFF000000) | (((buf[at + 1] as word) << 16) & 0x00FF0000)
         | (((buf[at + 2] as word) << 8) & 0x0000FF00) | ((buf[at + 3] as word) & 0x000000FF);
  }

  method MessageExt(buf: array<byte>, at: nat, w68: array<word>, w64: array<word>)
    requires at + 64 <= buf.Length && w68.Length == 68 && w64.Length == 64 && w68 != w64
    modifies w68, w64
    ensures forall j :: 0 <= j < 68 ==> w68[j] == W(buf[at..at + 64], j)
    ensures forall j :: 0 <= j < 64 ==> w64[j] == WPrime(buf[at..at + 64], j)
  {
    hide Join, Xor, Xor3, SM3P1, Rotl, W;
    ghost var block := buf[at..at + 64];
    var j := 0;
    while j < 16
      invariant 0 <= j <= 16
      invariant forall k :: 0 <= k < j ==> w68[k] == W(block, k)
    {
      var w := LoadWord(buf, at + j * 4);
      WHead(block, j);
      assert block[4 * j] == buf[at + j * 4] && block[4 * j + 1] == buf[at + j * 4 + 1];
      assert block[4 * j + 2] == buf[at + j * 4 + 2] && block[4 * j + 3] == buf[at + j * 4 + 3];
      w68[j] := w;
      j := j + 1;
    }
    while j < 68
      invariant 16 <= j <= 68
      invariant forall k :: 0 <= k < j ==> w68[k] == W(block, k)
    {
      var b := Xor3(w68[j - 16], w68[j - 9], Rotl(w68[j - 3], 15));
      var temp := SM3P1(b);
      var w := Xor3(temp, Rotl(w68[j - 13], 7), w68[j - 6]);
      WTail(block, j);
      w68[j] := w;
      j := j + 1;
    }
    j := 0;
    while j < 64
      invariant 0 <= j <= 64
      invariant forall k :: 0 <= k < 68 ==> w68[k] == W(block, k)
      invariant forall k :: 0 <= k < j ==> w64[k] == WPrime(block, k)
    {
      w64[j] := Xor(w68[j], w68[j + 4]);
      j := j + 1;
    }
  }

  lemma WHead(block: seq<byte>, j: nat)
    requires |block| == 64 && j < 16
    ensures W(block, j) == Join(block[4 * j], block[4 * j + 1], block[4 * j + 2], block[4 * j + 3])
  {
  }

  lemma WTail(block: seq<byte>, j: nat)
    requires |block| == 64 && j >= 16
    ensures W(block, j) ==
            Xor3(SM3P1(Xor3(W(block, j - 16), W(block, j - 9), Rotl(W(block, j - 3), 15))),
                 Rotl(W(block, j - 13), 7),
                 W(block, j - 6))
  {
    hide Xor3, SM3P1, Rotl;
  }

  /// Compression, section 5.3.3, as simultaneous assignments.

  function SS1(a: word, e: word, t: word): word { Rotl(Add(Add(Rotl(a, 12), e), t), 7) }

  function SS2(a: word, e: word, t: word): word { Xor(SS1(a, e, t), Rotl(a, 12)) }

  // One round; t is the round constant already rotated.
  function Round(s: State, t: word, w: word, w': word, j: nat): State
  {
    State(Add4(FF(s.a, s.b, s.c, j), s.d, SS2(s.a, s.e, t), w'),
          s.a,
          Rotl(s.b, 9),
          s.c,
          SM3P0(Add4(GG(s.e, s.f, s.g, j), s.h, SS1(s.a, s.e, t), w)),
          s.e,
          Rotl(s.f, 19),
          s.g)
  }

  function Turned(t: word, j: nat): word { Rotl(t, (j % 32) as bv6) }

  // The constant of round j turns left by j modulo 32.
  lemma TurnedMoves(t: word, j: nat, i: nat)
    requires i < 32
    ensures BitAt(Turned(t, j), (i + j) % 32) == BitAt(t, i)
  {
    hide Rotl, BitAt;
    RotlMoves(t, j % 32, i);
    assert (i + j % 32) % 32 == (i + j) % 32;
  }

  // The first n rounds, for any table of constants and any expanded words.
  function Rounds(s: State, t: seq<word>, w: seq<word>, w': seq<word>, n: nat): State
    requires n <= |t| && n <= |w| && n <= |w'|
  {
    if n == 0 then s else Round(Rounds(s, t, w, w', n - 1), Turned(t[n - 1], n - 1), w[n - 1], w'[n - 1], n - 1)
  }

  function XorStates(s: State, v: State): State
  {
    State(Xor(s.a, v.a), Xor(s.b, v.b), Xor(s.c, v.c), Xor(s.d, v.d),
          Xor(s.e, v.e), Xor(s.f, v.f), Xor(s.g, v.g), Xor(s.h, v.h))
  }

  function Compress(v: State, t: seq<word>, w: seq<word>, w': seq<word>): State
    requires |t| == 64 && |w| == 68 && |w'| == 64
  {
    XorStates(Rounds(v, t, w, w', 64), v)
  }

  method TInit(t: array<word>)
    requires t.Length == 64
    modifies t
    ensures forall j :: 0 <= j < 64 ==> t[j] == Constant(j)
  {
    for j := 0 to 16
      invariant forall k :: 0 <= k < j ==> t[k] == Constant(k)
    {
      t[j] := 0x79CC4519;
    }
    for j := 16 to 64
      invariant forall k :: 0 <= k < j ==> t[k] == Constant(k)
    {
      t[j] := 0x7A879D8A;
    }
  }

  // The eight assignments of a round in their written order.
  method RoundInPlace(v: array<word>, t: word, w: word, w': word, j: nat)
    requires v.Length == 8
    modifies v
    ensures StateOf(v[..]) == Round(StateOf(old(v[..])), t, w, w', j)
  {
    hide Rotl, Xor, SM3P0, FF, GG, Add;
    var ss1 := Rotl(Add(Add(Rotl(v[0], 12), v[4]), t), 7);
    var ss2 := Xor(ss1, Rotl(v[0], 12));
    var tt1 := Add4(FF(v[0], v[1], v[2], j), v[3], ss2, w');
    var tt2 := Add4(GG(v[4], v[5], v[6], j), v[7], ss1, w);
    v[3] := v[2];
    v[2] := Rotl(v[1], 9);
    v[1] := v[0];
    v[0] := tt1;
    v[7] := v[6];
    v[6] := Rotl(v[5], 19);
    v[5] := v[4];
    v[4] := SM3P0(tt2);
  }

  method RoundLoop(buf: array<word>, t: array<word>, w68: array<word>, w64: array<word>)
    requires buf.Length == 8 && t.Length == 64 && w68.Length == 68 && w64.Length == 64
    requires buf != t && buf != w68 && buf != w64
    modifies buf
    ensures StateOf(buf[..]) == Rounds(StateOf(old(buf[..])), t[..], w68[..], w64[..], 64)
  {
    hide Round, Turned, StateOf;
    var j := 0;
    while j < 64
      invariant 0 <= j <= 64
      invariant StateOf(buf[..]) == Rounds(StateOf(old(buf[..])), t[..], w68[..], w64[..], j)
    {
      RoundInPlace(buf, Turned(t[j], j), w68[j], w64[j], j);
      j := j + 1;
    }
  }

  method Copy(v: array<word>) returns (buf: array<word>)
    requires v.Length == 8
    ensures fresh(buf) && buf.Length == 8 && buf[..] == v[..]
  {
    buf := new word[8](i => 0);
    for j := 0 to 8
      invariant forall k :: 0 <= k < j ==> buf[k] == v[k]
    {
      buf[j] := v[j];
    }
  }

  method XorInto(v: array<word>, buf: array<word>)
    requires v.Length == 8 && buf.Length == 8 && v != buf
    modifies v
    ensures forall k :: 0 <= k < 8 ==> v[k] == Xor(buf[k], old(v[k]))
  {
    hide Xor;
    for j := 0 to 8
      invariant forall k :: 0 <= k < j ==> v[k] == Xor(buf[k], old(v[k]))
      invariant forall k :: j <= k < 8 ==> v[k] == old(v[k])
    {
      v[j] := Xor(buf[j], v[j]);
    }
  }

  method Cf(v: array<word>, t: array<word>, w68: array<word>, w64: array<word>)
    requires v.Length == 8 && t.Length == 64 && w68.Length == 68 && w64.Length == 64
    requires v != t && v != w68 && v != w64
    modifies v
    ensures StateOf(v[..]) == Compress(StateOf(old(v[..])), t[..], w68[..], w64[..])
  {
    hide Rounds, Xor;
    var buf := Copy(v);
    RoundLoop(buf, t, w68, w64);
    XorInto(v, buf);
  }

  /// The rounds lose nothing: for fixed expanded words each one can be undone.

  function UnRound(s: State, t: word, w: word, w': word, j: nat): State
  {
    var a, b, c, e, f, g := s.b, Rotl(s.c, 23), s.d, s.f, Rotl(s.g, 13), s.h;
    State(a, b, c,
          Sub(Sub(Sub(s.a, w'), SS2(a, e, t)), FF(a, b, c, j)),
          e, f, g,
          Sub(Sub(Sub(Mixing.P0Inverse(s.e), w), SS1(a, e, t)), GG(e, f, g, j)))
  }

  lemma AddThenSub(a: word, b: word)
    ensures Sub(Add(a, b), b) == a
  {
    calc {
      Sub(Add(a, b), b);
      Sub(a + b, b);
      (a + b) - b;
      a;
    }
  }

  lemma SubThenAdd(a: word, b: word)
    ensures Add(Sub(a, b), b) == a
  {
    calc {
      Add(Sub(a, b), b);
      Add(a - b, b);
      (a - b) + b;
      a;
    }
  }

  lemma AddSwaps(a: word, b: word)
    ensures Add(a, b) == Add(b, a)
  {
  }

  lemma AddSub(a: word, b: word)
    ensures Sub(Add(a, b), b) == a && Add(Sub(a, b), b) == a && Add(a, b) == Add(b, a)
  {
    hide Add, Sub;
    AddThenSub(a, b);
    SubThenAdd(a, b);
    AddSwaps(a, b);
  }

  lemma Add4Undone(f: word, x: word, s: word, w: word)
    ensures Sub(Sub(Sub(Add4(f, x, s, w), w), s), f) == x
    ensures Add4(f, Sub(Sub(Sub(x, w), s), f), s, w) == x
  {
    hide Add, Sub;
    AddSub(Add(Add(f, x), s), w);
    AddSub(Add(f, x), s);
    AddSub(f, x);
    AddSub(x, f);
    var y := Sub(Sub(x, w), s);
    AddSub(y, f);
    AddSub(f, Sub(y, f));
    AddSub(Sub(x, w), s);
    AddSub(x, w);
  }

  lemma Rotl9Undone(x: word)
    ensures Rotl(Rotl(x, 9), 23) == x
  {
  }

  lemma Rotl23Undone(x: word)
    ensures Rotl(Rotl(x, 23), 9) == x
  {
  }

  lemma Rotl19Undone(x: word)
    ensures Rotl(Rotl(x, 19), 13) == x
  {
  }

  lemma Rotl13Undone(x: word)
    ensures Rotl(Rotl(x, 13), 19) == x
  {
  }

  lemma RoundUndone(s: State, t: word, w: word, w': word, j: nat)
    ensures UnRound(Round(s, t, w, w', j), t, w, w', j) == s
  {
    hide Rotl, Xor, SM3P0, Mixing.P0Inverse, FF, GG, Add, Sub, Add4, SS1, SS2;
    Rotl9Undone(s.b);
    Rotl19Undone(s.f);
    Add4Undone(FF(s.a, s.b, s.c, j), s.d, SS2(s.a, s.e, t), w');
    Add4Undone(GG(s.e, s.f, s.g, j), s.h, SS1(s.a, s.e, t), w);
    Mixing.P0Permutes(Add4(GG(s.e, s.f, s.g, j), s.h, SS1(s.a, s.e, t), w));
  }

  lemma UnRoundUndone(s: State, t: word, w: word, w': word, j: nat)
    ensures Round(UnRound(s, t, w, w', j), t, w, w', j) == s
  {
    hide Rotl, Xor, SM3P0, Mixing.P0Inverse, FF, GG, Add, Sub, Add4, SS1, SS2;
    var u := UnRound(s, t, w, w', j);
    Rotl23Undone(s.c);
    Rotl13Undone(s.g);
    Add4Undone(FF(u.a, u.b, u.c, j), s.a, SS2(u.a, u.e, t), w');
    Add4Undone(GG(u.e, u.f, u.g, j), Mixing.P0Inverse(s.e), SS1(u.a, u.e, t), w);
    Mixing.P0Permutes(s.e);
  }

  function UnRounds(s: State, t: seq<word>, w: seq<word>, w': seq<word>, n: nat): State
    requires n <= |t| && n <= |w| && n <= |w'|
    decreases n
  {
    if n == 0 then s
    else UnRounds(UnRound(s, Turned(t[n - 1], n - 1), w[n - 1], w'[n - 1], n - 1), t, w, w', n - 1)
  }

  // The update before the final exclusive-or is a bijection of the eight words.
  lemma {:induction false} RoundsAreABijection(s: State, t: seq<word>, w: seq<word>, w': seq<word>, n: nat)
    requires n <= |t| && n <= |w| && n <= |w'|
    ensures UnRounds(Rounds(s, t, w, w', n), t, w, w', n) == s
    ensures Rounds(UnRounds(s, t, w, w', n), t, w, w', n) == s
    decreases n
  {
    hide Round, UnRound, Turned;
    if n > 0 {
      var tn, wn, wn' := Turned(t[n - 1], n - 1), w[n - 1], w'[n - 1];
      RoundUndone(Rounds(s, t, w, w', n - 1), tn, wn, wn', n - 1);
      RoundsAreABijection(s, t, w, w', n - 1);
      UnRoundUndone(s, tn, wn, wn', n - 1);
      RoundsAreABijection(UnRound(s, tn, wn, wn', n - 1), t, w, w', n - 1);
    }
  }
}
