/// sm4_nice: the SM4 key schedule, encryption and decryption loops over their arrays, against the Feistel
/// rounds of sections 7.1 to 7.3 of GB/T 32907-2016.

module Sm4 {
  import opened BitValues
  import opened Words
  import opened NiceReference
  import opened Mixing
  import opened Rotation

  const FK: seq<word> := [0xA3B1BAC6, 0x56AA3350, 0x677D9197, 0xB27022DC]

  const CK: seq<word> := [
    0x00070e15, 0x1c232a31, 0x383f464d, 0x545b6269,
    0x70777e85, 0x8c939aa1, 0xa8afb6bd, 0xc4cbd2d9,
    0xe0e7eef5, 0xfc030a11, 0x181f262d, 0x343b4249,
    0x50575e65, 0x6c737a81, 0x888f969d, 0xa4abb2b9,
    0xc0c7ced5, 0xdce3eaf1, 0xf8ff060d, 0x141b2229,
    0x30373e45, 0x4c535a61, 0x686f767d, 0x848b9299,
    0xa0a7aeb5, 0xbcc3cad1, 0xd8dfe6ed, 0xf4fb0209,
    0x10171e25, 0x2c333a41, 0x484f565d, 0x646b7279]

  // Byte j of constant i is (4i + j) * 7 modulo 256, which is how bytes multiply.
  function CkByte(i: byte, j: byte): byte { (4 * i + j) * 7 }

  function CkWord(i: byte): word { Join(CkByte(i, 0), CkByte(i, 1), CkByte(i, 2), CkByte(i, 3)) }

  lemma Rule0()
    ensures CkWord(0) == 0x00070e15 && CkWord(1) == 0x1c232a31 && CkWord(2) == 0x383f464d && CkWord(3) == 0x545b6269
  {
  }

  lemma Rule1()
    ensures CkWord(4) == 0x70777e85 && CkWord(5) == 0x8c939aa1 && CkWord(6) == 0xa8afb6bd && CkWord(7) == 0xc4cbd2d9
  {
  }

  lemma Rule2()
    ensures CkWord(8) == 0xe0e7eef5 && CkWord(9) == 0xfc030a11 && CkWord(10) == 0x181f262d && CkWord(11) == 0x343b4249
  {
  }

  lemma Rule3()
    ensures CkWord(12) == 0x50575e65 && CkWord(13) == 0x6c737a81 && CkWord(14) == 0x888f969d && CkWord(15) == 0xa4abb2b9
  {
  }

  lemma Rule4()
    ensures CkWord(16) == 0xc0c7ced5 && CkWord(17) == 0xdce3eaf1 && CkWord(18) == 0xf8ff060d && CkWord(19) == 0x141b2229
  {
  }

  lemma Rule5()
    ensures CkWord(20) == 0x30373e45 && CkWord(21) == 0x4c535a61 && CkWord(22) == 0x686f767d && CkWord(23) == 0x848b9299
  {
  }

  lemma Rule6()
    ensures CkWord(24) == 0xa0a7aeb5 && CkWord(25) == 0xbcc3cad1 && CkWord(26) == 0xd8dfe6ed && CkWord(27) == 0xf4fb0209
  {
  }

  lemma Rule7()
    ensures CkWord(28) == 0x10171e25 && CkWord(29) == 0x2c333a41 && CkWord(30) == 0x484f565d && CkWord(31) == 0x646b7279
  {
  }

  // The constants of section 7.3.
  function Constants(): (c: seq<word>)
    ensures |c| == 32
  {
    seq(32, i requires 0 <= i < 32 => CkWord(i as byte))
  }

  lemma ConstantsRow0()
    ensures Constants()[0..8] ==
       [0x00070e15, 0x1c232a31, 0x383f464d, 0x545b6269,
        0x70777e85, 0x8c939aa1, 0xa8afb6bd, 0xc4cbd2d9]
  {
    hide CkWord;
    Rule0();
    Rule1();
  }

  lemma ConstantsRow1()
    ensures Constants()[8..16] ==
       [0xe0e7eef5, 0xfc030a11, 0x181f262d, 0x343b4249,
        0x50575e65, 0x6c737a81, 0x888f969d, 0xa4abb2b9]
  {
    hide CkWord;
    Rule2();
    Rule3();
  }

  lemma ConstantsRow2()
    ensures Constants()[16..24] ==
       [0xc0c7ced5, 0xdce3eaf1, 0xf8ff060d, 0x141b2229,
        0x30373e45, 0x4c535a61, 0x686f767d, 0x848b9299]
  {
    hide CkWord;
    Rule4();
    Rule5();
  }

  lemma ConstantsRow3()
    ensures Constants()[24..32] ==
       [0xa0a7aeb5, 0xbcc3cad1, 0xd8dfe6ed, 0xf4fb0209,
        0x10171e25, 0x2c333a41, 0x484f565d, 0x646b7279]
  {
    hide CkWord;
    Rule6();
    Rule7();
  }

  lemma TableRows()
    ensures CK ==
       [0x00070e15, 0x1c232a31, 0x383f464d, 0x545b6269,
        0x70777e85, 0x8c939aa1, 0xa8afb6bd, 0xc4cbd2d9]
     + [0xe0e7eef5, 0xfc030a11, 0x181f262d, 0x343b4249,
        0x50575e65, 0x6c737a81, 0x888f969d, 0xa4abb2b9]
     + [0xc0c7ced5, 0xdce3eaf1, 0xf8ff060d, 0x141b2229,
        0x30373e45, 0x4c535a61, 0x686f767d, 0x848b9299]
     + [0xa0a7aeb5, 0xbcc3cad1, 0xd8dfe6ed, 0xf4fb0209,
        0x10171e25, 0x2c333a41, 0x484f565d, 0x646b7279]
  {
  }

  lemma ConstantsFollowTheRule()
    ensures CK == Constants()
  {
    var c := Constants();
    assert c == c[0..8] + c[8..16] + c[16..24] + c[24..32];
    ConstantsRow0();
    ConstantsRow1();
    ConstantsRow2();
    ConstantsRow3();
    TableRows();
  }

  /// The rounds, for any inner function t.

  datatype Block = Block(a: word, b: word, c: word, d: word)

  function Sum(a: word, b: word, c: word, k: word): word { Xor(Xor3(a, b, c), k) }

  // Each of the four arguments counts in every digit.
  lemma SumDigits(a: word, b: word, c: word, k: word, i: nat)
    requires i < 32
    ensures BitAt(Sum(a, b, c, k), i) == (Odd3(BitAt(a, i), BitAt(b, i), BitAt(c, i)) != BitAt(k, i))
  {
    hide Xor, Xor3, BitAt, Odd3;
    Xor3At(a, b, c, i);
    XorAt(Xor3(a, b, c), k, i);
  }

  function Feistel(t: word -> word, a: word, b: word, c: word, d: word, k: word): word { Xor(a, t(Sum(b, c, d, k))) }

  function Round(t: word -> word, x: Block, k: word): Block
  {
    Block(x.b, x.c, x.d, Feistel(t, x.a, x.b, x.c, x.d, k))
  }

  function UnRound(t: word -> word, x: Block, k: word): Block
  {
    Block(Xor(x.d, t(Sum(x.a, x.b, x.c, k))), x.a, x.b, x.c)
  }

  function Rounds(t: word -> word, x: Block, ks: seq<word>): Block
  {
    if ks == [] then x else Round(t, Rounds(t, x, ks[..|ks| - 1]), ks[|ks| - 1])
  }

  function UnRounds(t: word -> word, x: Block, ks: seq<word>): Block
    decreases |ks|
  {
    if ks == [] then x else UnRounds(t, UnRound(t, x, ks[|ks| - 1]), ks[..|ks| - 1])
  }

  function Flip(x: Block): Block { Block(x.d, x.c, x.b, x.a) }

  function Backwards(ks: seq<word>): (r: seq<word>)
    ensures |r| == |ks|
  {
    if ks == [] then [] else [ks[|ks| - 1]] + Backwards(ks[..|ks| - 1])
  }

  // All rounds, then the reverse transform.
  function Encrypt(t: word -> word, ks: seq<word>, x: Block): Block { Flip(Rounds(t, x, ks)) }

  function Decrypt(t: word -> word, ks: seq<word>, x: Block): Block { Encrypt(t, Backwards(ks), x) }

  lemma SumFlips(a: word, b: word, c: word, k: word)
    ensures Sum(a, b, c, k) == Sum(c, b, a, k)
  {
    hide Xor;
    XorAssoc(a, b, c);
    XorComm(a, Xor(b, c));
    XorComm(b, c);
  }

  lemma RoundUndone(t: word -> word, x: Block, k: word)
    ensures UnRound(t, Round(t, x, k), k) == x && Round(t, UnRound(t, x, k), k) == x
  {
    hide Xor, Sum;
    XorCancel(x.a, t(Sum(x.b, x.c, x.d, k)));
    XorCancel(x.d, t(Sum(x.a, x.b, x.c, k)));
  }

  lemma {:induction false} RoundsUndone(t: word -> word, x: Block, ks: seq<word>)
    ensures UnRounds(t, Rounds(t, x, ks), ks) == x
  {
    hide Round, UnRound;
    if ks != [] {
      RoundUndone(t, Rounds(t, x, ks[..|ks| - 1]), ks[|ks| - 1]);
      RoundsUndone(t, x, ks[..|ks| - 1]);
    }
  }

  lemma {:induction false} UnRoundsUndone(t: word -> word, x: Block, ks: seq<word>)
    ensures Rounds(t, UnRounds(t, x, ks), ks) == x
    decreases |ks|
  {
    hide Round, UnRound;
    if ks != [] {
      var k := ks[|ks| - 1];
      UnRoundsUndone(t, UnRound(t, x, k), ks[..|ks| - 1]);
      RoundUndone(t, x, k);
    }
  }

  // A round on the flipped block is a round undone.
  lemma FlippedRound(t: word -> word, x: Block, k: word)
    ensures Round(t, Flip(x), k) == Flip(UnRound(t, x, k))
  {
    hide Xor, Sum;
    SumFlips(x.a, x.b, x.c, k);
  }

  lemma {:induction false} RoundsFirst(t: word -> word, x: Block, k: word, ks: seq<word>)
    ensures Rounds(t, x, [k] + ks) == Rounds(t, Round(t, x, k), ks)
  {
    hide Round;
    var all := [k] + ks;
    if ks == [] {
      assert all == [k] && all[..0] == [];
    } else {
      assert all[..|all| - 1] == [k] + ks[..|ks| - 1];
      RoundsFirst(t, x, k, ks[..|ks| - 1]);
    }
  }

  lemma {:induction false} FlippedRounds(t: word -> word, x: Block, ks: seq<word>)
    ensures Rounds(t, Flip(x), Backwards(ks)) == Flip(UnRounds(t, x, ks))
    decreases |ks|
  {
    hide Round, UnRound, Flip;
    if ks != [] {
      var k, rest := ks[|ks| - 1], ks[..|ks| - 1];
      RoundsFirst(t, Flip(x), k, Backwards(rest));
      FlippedRound(t, x, k);
      FlippedRounds(t, UnRound(t, x, k), rest);
    }
  }

  // Decryption undoes encryption, whatever the inner function and however many round keys.
  lemma DecryptionUndoes(t: word -> word, ks: seq<word>, x: Block)
    ensures Decrypt(t, ks, Encrypt(t, ks, x)) == x
  {
    hide Rounds, UnRounds;
    FlippedRounds(t, Rounds(t, x, ks), ks);
    RoundsUndone(t, x, ks);
  }

  // And encryption undoes decryption.
  lemma EncryptionUndoes(t: word -> word, ks: seq<word>, x: Block)
    ensures Encrypt(t, ks, Decrypt(t, ks, x)) == x
  {
    hide Rounds, UnRounds;
    FlippedRounds(t, Flip(x), ks);
    UnRoundsUndone(t, Flip(x), ks);
  }

  /// The key schedule: the same rounds over the constants, with the key map inside.

  function Masked(key: Block): Block
  {
    Block(Xor(key.a, FK[0]), Xor(key.b, FK[1]), Xor(key.c, FK[2]), Xor(key.d, FK[3]))
  }

  function RoundKey(key: Block, i: nat): word
    requires i < 32
  {
    Rounds(KeyT, Masked(key), Constants()[..i + 1]).d
  }

  function RoundKeys(key: Block): (ks: seq<word>)
    ensures |ks| == 32
  {
    seq(32, i requires 0 <= i < 32 => RoundKey(key, i))
  }

  // The key computed back from round keys i to i + 3.
  function KeyFrom(w: Block, i: nat): Block
    requires i + 4 <= 32
  {
    Masked(UnRounds(KeyT, w, Constants()[..i + 4]))
  }

  lemma MaskTwice(key: Block)
    ensures Masked(Masked(key)) == key
  {
    hide Xor;
    XorCancel(key.a, FK[0]);
    XorCancel(key.b, FK[1]);
    XorCancel(key.c, FK[2]);
    XorCancel(key.d, FK[3]);
  }

  lemma RoundsStep(x: Block, n: nat)
    requires n < 32
    ensures var now := Rounds(KeyT, x, Constants()[..n]);
      var next := Rounds(KeyT, x, Constants()[..n + 1]);
      next == Block(now.b, now.c, now.d, next.d)
  {
    hide KeyT, Xor, Sum, Constants;
    assert Constants()[..n + 1][..n] == Constants()[..n];
  }

  // Four consecutive round keys are the state of the schedule, so they determine the key.
  lemma KeyFromAnyFour(key: Block, i: nat)
    requires i + 4 <= 32
    ensures KeyFrom(Block(RoundKey(key, i), RoundKey(key, i + 1), RoundKey(key, i + 2), RoundKey(key, i + 3)), i) == key
  {
    hide Round, UnRounds, Rounds, Constants;
    var x := Masked(key);
    RoundsStep(x, i + 1);
    RoundsStep(x, i + 2);
    RoundsStep(x, i + 3);
    hide Masked;
    RoundsUndone(KeyT, x, Constants()[..i + 4]);
    MaskTwice(key);
  }

  lemma SameFourSameKey(key: Block, other: Block, i: nat)
    requires i + 4 <= 32
    requires forall j :: i <= j < i + 4 ==> RoundKeys(key)[j] == RoundKeys(other)[j]
    ensures key == other
  {
    hide KeyFrom;
    KeyFromAnyFour(key, i);
    KeyFromAnyFour(other, i);
    forall j | i <= j < i + 4 ensures RoundKey(key, j) == RoundKey(other, j) {
      assert RoundKeys(key)[j] == RoundKeys(other)[j];
    }
    hide RoundKey;
    assert RoundKey(key, i) == RoundKey(other, i) && RoundKey(key, i + 1) == RoundKey(other, i + 1);
    assert RoundKey(key, i + 2) == RoundKey(other, i + 2) && RoundKey(key, i + 3) == RoundKey(other, i + 3);
  }

  /// The arrays.

  // Each element from the fifth on is made from the four before it and one round key.
  ghost predicate Chain(t: word -> word, s: seq<word>, ks: seq<word>)
  {
    |s| == |ks| + 4 && forall i :: 0 <= i < |ks| ==> Linked(t, s, i, ks[i])
  }

  predicate Linked(t: word -> word, s: seq<word>, i: nat, k: word)
    requires i + 4 < |s|
  {
    s[i + 4] == Feistel(t, s[i], s[i + 1], s[i + 2], s[i + 3], k)
  }

  function Window(s: seq<word>, i: nat): Block
    requires i + 4 <= |s|
  {
    Block(s[i], s[i + 1], s[i + 2], s[i + 3])
  }

  lemma {:induction false} ChainIsRounds(t: word -> word, s: seq<word>, ks: seq<word>, n: nat)
    requires Chain(t, s, ks) && n <= |ks|
    ensures Window(s, n) == Rounds(t, Window(s, 0), ks[..n])
  {
    hide Feistel;
    if n > 0 {
      ChainIsRounds(t, s, ks, n - 1);
      assert ks[..n][..n - 1] == ks[..n - 1];
      assert Linked(t, s, n - 1, ks[n - 1]);
    }
  }

  lemma {:induction false} BackwardsAt(ks: seq<word>, i: nat)
    requires i < |ks|
    ensures Backwards(ks)[i] == ks[|ks| - 1 - i]
  {
    if i > 0 {
      BackwardsAt(ks[..|ks| - 1], i - 1);
    }
  }

  lemma ChainStarts(t: word -> word, s: seq<word>)
    requires |s| == 4
    ensures Chain(t, s, [])
  {
  }

  lemma ChainGrows(t: word -> word, s: seq<word>, ks: seq<word>, k: word, x: word)
    requires Chain(t, s, ks)
    requires var n := |ks|; x == Feistel(t, s[n], s[n + 1], s[n + 2], s[n + 3], k)
    ensures Chain(t, s + [x], ks + [k])
  {
    hide Feistel;
    forall i | 0 <= i < |ks| + 1 ensures Linked(t, s + [x], i, (ks + [k])[i]) {
      if i < |ks| {
        assert Linked(t, s, i, ks[i]);
      }
    }
  }

  method KeyLoop(ck: seq<word>, k: array<word>, rk: array<word>)
    requires |ck| == 32 && k.Length == 36 && rk.Length == 32 && k != rk
    modifies k, rk
    ensures k[..4] == old(k[..4])
    ensures Chain(KeyT, k[..], ck)
    ensures forall i :: 0 <= i < 32 ==> rk[i] == k[i + 4]
  {
    hide KeyT, Xor, Sum, Chain, SM4Ks;
    var i := 0;
    ChainStarts(KeyT, k[..4]);
    while i < 32
      invariant 0 <= i <= 32 && k[..4] == old(k[..4])
      invariant Chain(KeyT, k[..i + 4], ck[..i])
      invariant forall j :: 0 <= j < i ==> rk[j] == k[j + 4]
    {
      ghost var before := k[..i + 4];
      var temp := Sum(k[i + 1], k[i + 2], k[i + 3], ck[i]);
      var next := SM4Ks(k[i], temp);
      KsIsFeistel(k[i], temp);
      ChainGrows(KeyT, before, ck[..i], ck[i], next);
      k[i + 4] := next;
      assert k[..i + 5] == before + [next] && ck[..i + 1] == ck[..i] + [ck[i]];
      assert k[..4] == before[..4];
      rk[i] := k[i + 4];
      i := i + 1;
    }
    assert k[..36] == k[..] && ck[..32] == ck;
  }

  lemma KsIsFeistel(k: word, temp: word)
    ensures SM4Ks(k, temp) == Xor(k, KeyT(temp))
  {
  }

  lemma EdIsFeistel(x: word, temp: word)
    ensures SM4Ed(x, temp) == Xor(x, DataT(temp))
  {
  }

  method EncryptLoop(x: array<word>, rk: array<word>)
    requires x.Length == 36 && rk.Length == 32 && x != rk
    modifies x
    ensures x[..4] == old(x[..4])
    ensures Chain(DataT, x[..], rk[..])
  {
    hide DataT, Xor, Sum, Chain, SM4Ed;
    var i := 0;
    ChainStarts(DataT, x[..4]);
    while i < 32
      invariant 0 <= i <= 32 && x[..4] == old(x[..4])
      invariant Chain(DataT, x[..i + 4], rk[..i])
    {
      ghost var before := x[..i + 4];
      var temp := Sum(x[i + 1], x[i + 2], x[i + 3], rk[i]);
      var next := SM4Ed(x[i], temp);
      EdIsFeistel(x[i], temp);
      ChainGrows(DataT, before, rk[..i], rk[i], next);
      x[i + 4] := next;
      assert x[..i + 5] == before + [next] && rk[..i + 1] == rk[..i] + [rk[i]];
      assert x[..4] == before[..4];
      i := i + 1;
    }
    assert x[..36] == x[..] && rk[..32] == rk[..];
  }

  method DecryptLoop(y: array<word>, rk: array<word>)
    requires y.Length == 36 && rk.Length == 32 && y != rk
    modifies y
    ensures y[..4] == old(y[..4])
    ensures Chain(DataT, y[..], Backwards(rk[..]))
  {
    hide DataT, Xor, Sum, Chain, SM4Ed, Backwards;
    var i := 0;
    ghost var ks := Backwards(rk[..]);
    ChainStarts(DataT, y[..4]);
    while i < 32
      invariant 0 <= i <= 32 && y[..4] == old(y[..4])
      invariant Chain(DataT, y[..i + 4], ks[..i])
    {
      ghost var before := y[..i + 4];
      BackwardsAt(rk[..], i);
      var temp := Sum(y[i + 1], y[i + 2], y[i + 3], rk[31 - i]);
      var next := SM4Ed(y[i], temp);
      EdIsFeistel(y[i], temp);
      ChainGrows(DataT, before, ks[..i], ks[i], next);
      y[i + 4] := next;
      assert y[..i + 5] == before + [next] && ks[..i + 1] == ks[..i] + [ks[i]];
      assert y[..4] == before[..4];
      i := i + 1;
    }
    assert y[..36] == y[..] && ks[..32] == ks;
  }

  // The decryption array runs through the encryption array from its end.
  lemma {:induction false} MirrorImage(t: word -> word, x: seq<word>, y: seq<word>, ks: seq<word>, i: nat)
    requires Chain(t, x, ks) && Chain(t, y, Backwards(ks)) && i < |ks| + 4
    requires forall j :: 0 <= j < 4 ==> y[j] == x[|ks| + 3 - j]
    ensures y[i] == x[|ks| + 3 - i]
    decreases i
  {
    hide Xor, Sum;
    if i >= 4 {
      var j := i - 4;
      MirrorImage(t, x, y, ks, j);
      MirrorImage(t, x, y, ks, j + 1);
      MirrorImage(t, x, y, ks, j + 2);
      MirrorImage(t, x, y, ks, j + 3);
      BackwardsAt(ks, j);
      var m := |ks| - 1 - j;
      assert Linked(t, y, j, Backwards(ks)[j]) && Linked(t, x, m, ks[m]);
      SumFlips(y[j + 1], y[j + 2], y[j + 3], ks[m]);
      XorCancel(x[m], t(Sum(x[m + 1], x[m + 2], x[m + 3], ks[m])));
    }
  }

  method ExpandKey(key: array<word>) returns (k: array<word>, rk: array<word>)
    requires key.Length == 4
    ensures fresh(k) && fresh(rk) && k.Length == 36 && rk[..] == RoundKeys(Window(key[..], 0))
  {
    hide KeyT, Xor, Chain, RoundKeys;
    k, rk := new word[36](i => 0), new word[32](i => 0);
    k[0], k[1], k[2], k[3] := Xor(key[0], FK[0]), Xor(key[1], FK[1]), Xor(key[2], FK[2]), Xor(key[3], FK[3]);
    ghost var k0 := k[..4];
    KeyLoop(CK, k, rk);
    assert Window(k[..], 0) == Window(k0, 0) == Masked(Window(key[..], 0));
    KeysOfChain(Window(key[..], 0), k[..], rk[..]);
  }

  method EncryptBlock(cipher: array<word>, rk: array<word>) returns (x: array<word>)
    requires cipher.Length == 4 && rk.Length == 32
    ensures fresh(x) && x.Length == 36 && Chain(DataT, x[..], rk[..])
    ensures Window(x[..], 0) == Window(cipher[..], 0)
    ensures Flip(Window(x[..], 32)) == Encrypt(DataT, rk[..], Window(cipher[..], 0))
  {
    hide DataT, Chain, Rounds;
    x := new word[36](i => 0);
    x[0], x[1], x[2], x[3] := cipher[0], cipher[1], cipher[2], cipher[3];
    ghost var x0 := x[..4];
    EncryptLoop(x, rk);
    assert Window(x[..], 0) == Window(x0, 0) == Window(cipher[..], 0);
    ChainIsRounds(DataT, x[..], rk[..], 32);
    assert rk[..][..32] == rk[..];
  }

  method DecryptBlock(x: array<word>, rk: array<word>) returns (y: array<word>)
    requires x.Length == 36 && rk.Length == 32
    ensures fresh(y) && y.Length == 36 && Chain(DataT, y[..], Backwards(rk[..]))
    ensures Window(y[..], 0) == Flip(Window(x[..], 32))
    ensures Flip(Window(y[..], 32)) == Decrypt(DataT, rk[..], Flip(Window(x[..], 32)))
  {
    hide DataT, Chain, Rounds, Backwards;
    y := new word[36](i => 0);
    y[0], y[1], y[2], y[3] := x[35], x[34], x[33], x[32];
    ghost var y0 := y[..4];
    DecryptLoop(y, rk);
    assert Window(y[..], 0) == Window(y0, 0) == Flip(Window(x[..], 32));
    ChainIsRounds(DataT, y[..], Backwards(rk[..]), 32);
    assert Backwards(rk[..])[..32] == Backwards(rk[..]);
  }

  // sm4_nice: x ends with the encrypted block, y undoes x from its end and ends with the block again.
  method Sm4Nice(key: array<word>, cipher: array<word>) returns (x: array<word>, y: array<word>)
    requires key.Length == 4 && cipher.Length == 4
    ensures x.Length == y.Length == 36
    ensures Window(x[..], 0) == Window(cipher[..], 0)
    ensures Flip(Window(x[..], 32)) == Encrypt(DataT, RoundKeys(Window(key[..], 0)), Window(cipher[..], 0))
    ensures forall i :: 0 <= i < 36 ==> y[i] == x[35 - i]
    ensures Flip(Window(y[..], 32)) == Window(cipher[..], 0)
  {
    hide KeyT, DataT, Chain, RoundKeys, Rounds, Backwards;
    var k, rk := ExpandKey(key);
    x := EncryptBlock(cipher, rk);
    y := DecryptBlock(x, rk);
    DecryptionUndoes(DataT, rk[..], Window(cipher[..], 0));
    MirrorAll(DataT, x[..], y[..], rk[..]);
  }

  lemma MirrorAll(t: word -> word, x: seq<word>, y: seq<word>, ks: seq<word>)
    requires Chain(t, x, ks) && Chain(t, y, Backwards(ks))
    requires Window(y, 0) == Flip(Window(x, |ks|))
    ensures forall i :: 0 <= i < |ks| + 4 ==> y[i] == x[|ks| + 3 - i]
  {
    assert |x| == |ks| + 4 && |y| == |ks| + 4;
    hide Chain, Backwards;
    forall i | 0 <= i < |ks| + 4 ensures y[i] == x[|ks| + 3 - i] {
      MirrorImage(t, x, y, ks, i);
    }
  }

  lemma KeysOfChain(key: Block, k: seq<word>, rk: seq<word>)
    requires Chain(KeyT, k, CK) && Window(k, 0) == Masked(key)
    requires |rk| == 32 && forall i :: 0 <= i < 32 ==> rk[i] == k[i + 4]
    ensures rk == RoundKeys(key)
  {
    hide Masked, Rounds, Linked, Constants;
    ConstantsFollowTheRule();
    forall i | 0 <= i < 32 ensures rk[i] == RoundKey(key, i) {
      ChainIsRounds(KeyT, k, CK, i + 1);
      assert Window(k, i + 1).d == k[i + 4];
    }
  }
}
