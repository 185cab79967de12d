/// The first run that main of sm3_nice_uart/nice.c makes: the message "abc", the example in annex A.1 of
/// GB/T 32905-2016.

module Sm3Example {
  import opened Rotation
  import opened Words
  import opened NiceReference
  import opened Sm3
  import opened Sm3Hash

  const ABC: seq<byte> := [0x61, 0x62, 0x63]

  // The expanded words of the one block, eight at a time.
  function Word0(k: nat): word
    requires 0 <= k < 8
  {
    if k == 0 then 0x61626380 else if k == 1 then 0x00000000 else if k == 2 then 0x00000000 else 
    if k == 3 then 0x00000000 else if k == 4 then 0x00000000 else if k == 5 then 0x00000000 else 
    if k == 6 then 0x00000000 else 0x00000000
  }

  function Word8(k: nat): word
    requires 8 <= k < 16
  {
    if k == 8 then 0x00000000 else if k == 9 then 0x00000000 else if k == 10 then 0x00000000 else 
    if k == 11 then 0x00000000 else if k == 12 then 0x00000000 else if k == 13 then 0x00000000 else 
    if k == 14 then 0x00000000 else 0x00000018
  }

  function Word16(k: nat): word
    requires 16 <= k < 24
  {
    if k == 16 then 0x9092e200 else if k == 17 then 0x00000000 else if k == 18 then 0x000c0606 else 
    if k == 19 then 0x719c70ed else if k == 20 then 0x00000000 else if k == 21 then 0x8001801f else 
    if k == 22 then 0x939f7da9 else 0x00000000
  }

  function Word24(k: nat): word
    requires 24 <= k < 32
  {
    if k == 24 then 0x2c6fa1f9 else if k == 25 then 0xadaaef14 else if k == 26 then 0x00000000 else 
    if k == 27 then 0x0001801e else if k == 28 then 0x9a965f89 else if k == 29 then 0x49710048 else 
    if k == 30 then 0x23ce86a1 else 0xb2d12f1b
  }

  function Word32(k: nat): word
    requires 32 <= k < 40
  {
    if k == 32 then 0xe1dae338 else if k == 33 then 0xf8061807 else if k == 34 then 0x055d68be else 
    if k == 35 then 0x86cfd481 else if k == 36 then 0x1f447d83 else if k == 37 then 0xd9023dbf else 
    if k == 38 then 0x185898e0 else 0xe0061807
  }

  function Word40(k: nat): word
    requires 40 <= k < 48
  {
    if k == 40 then 0x050df55c else if k == 41 then 0xcde0104c else if k == 42 then 0xa5b9c955 else 
    if k == 43 then 0xa7df0184 else if k == 44 then 0x6e46cd08 else if k == 45 then 0xe3babdf8 else 
    if k == 46 then 0x70caa422 else 0x0353af50
  }

  function Word48(k: nat): word
    requires 48 <= k < 56
  {
    if k == 48 then 0xa92dbca1 else if k == 49 then 0x5f33cfd2 else if k == 50 then 0xe16f6e89 else 
    if k == 51 then 0xf70fe941 else if k == 52 then 0xca5462dc else if k == 53 then 0x85a90152 else 
    if k == 54 then 0x76af6296 else 0xc922bdb2
  }

  function Word56(k: nat): word
    requires 56 <= k < 64
  {
    if k == 56 then 0x68378cf5 else if k == 57 then 0x97585344 else if k == 58 then 0x09008723 else 
    if k == 59 then 0x86faee74 else if k == 60 then 0x2ab908b0 else if k == 61 then 0x4a64bc50 else 
    if k == 62 then 0x864e6e08 else 0xf07e6590
  }

  function Word64(k: nat): word
    requires 64 <= k < 68
  {
    if k == 64 then 0x325c8f78 else if k == 65 then 0xaccb8011 else if k == 66 then 0xe11db9dd else 
    0xb99c0545
  }

  function Word(k: nat): word
    requires k < 68
  {
    if k < 8 then Word0(k) else if k < 16 then Word8(k) else if k < 24 then Word16(k) else 
    if k < 32 then Word24(k) else if k < 40 then Word32(k) else if k < 48 then Word40(k) else 
    if k < 56 then Word48(k) else if k < 64 then Word56(k) else Word64(k)
  }

  ghost predicate Known(block: seq<byte>, n: nat)
  {
    |block| == 64 && n <= 68 && forall k :: 0 <= k < n ==> W(block, k) == Word(k)
  }

  ghost predicate Sees(w: seq<word>, w': seq<word>)
  {
    && |w| == 68 && |w'| == 64
    && forall k :: 0 <= k < 64 ==> w[k] == Word(k) && w'[k] == Xor(Word(k), Word(k + 4))
  }

  // One more word of the expansion: b goes into P1, which makes p of it.
  lemma Expands(block: seq<byte>, j: nat, b: word, p: word)
    requires 16 <= j < 68 && Known(block, j)
    requires Xor3(Word(j - 16), Word(j - 9), Rotl(Word(j - 3), 15)) == b && SM3P1(b) == p
    requires Xor3(p, Rotl(Word(j - 13), 7), Word(j - 6)) == Word(j)
    ensures Known(block, j + 1)
  {
    hide W, Xor3, SM3P1, Rotl, Word;
    WTail(block, j);
  }

  lemma Words16(block: seq<byte>)
    requires Known(block, 16)
    ensures Known(block, 29)
  {
    hide Known;
    Expands(block, 16, 0x61626380, 0x9092e200);
    Expands(block, 17, 0x00000000, 0x00000000);
    Expands(block, 18, 0x000c0000, 0x000c0606);
    Expands(block, 19, 0x71004849, 0x719c70ed);
    Expands(block, 20, 0x00000000, 0x00000000);
    Expands(block, 21, 0x03030006, 0x80018007);
    Expands(block, 22, 0x3876b8ce, 0x030d9fa9);
    Expands(block, 23, 0x00000000, 0x00000000);
    Expands(block, 24, 0xc00fc018, 0x2c63a7ff);
    Expands(block, 25, 0x2e462bcf, 0xdc369ff9);
    Expands(block, 26, 0x00000000, 0x00000000);
    Expands(block, 27, 0xd0f09031, 0x80000001);
    Expands(block, 28, 0x06162638, 0x09092e20);
  }

  lemma Words29(block: seq<byte>)
    requires Known(block, 29)
    ensures Known(block, 42)
  {
    hide Known;
    Expands(block, 29, 0x00000000, 0x00000000);
    Expands(block, 30, 0x400e801f, 0x0fa12758);
    Expands(block, 31, 0xbc5bb0fa, 0x1978c30f);
    Expands(block, 32, 0x10b6c6b8, 0x2fe29580);
    Expands(block, 33, 0x6f3f301e, 0xf8079819);
    Expands(block, 34, 0x3a2b307a, 0x9f0b38f7);
    Expands(block, 35, 0x00000000, 0x00000000);
    Expands(block, 36, 0x0c027c1d, 0x3c8afb22);
    Expands(block, 37, 0xaec8dd38, 0x5c03ee32);
    Expands(block, 38, 0x30aebe86, 0x2cf5f18e);
    Expands(block, 39, 0x1d0f0903, 0x18000000);
    Expands(block, 40, 0x80616263, 0x009092e2);
    Expands(block, 41, 0x00000000, 0x00000000);
  }

  lemma Words42(block: seq<byte>)
    requires Known(block, 42)
    ensures Known(block, 55)
  {
    hide Known;
    Expands(block, 42, 0xf405e804, 0x027d90f2);
    Expands(block, 43, 0xfff2ea26, 0x999e6caa);
    Expands(block, 44, 0x147fedf8, 0x1e89d831);
    Expands(block, 45, 0xb29faf17, 0xeecd398f);
    Expands(block, 46, 0x7a0ee8f1, 0x76cb5282);
    Expands(block, 47, 0xcc0d80d8, 0x6007e01e);
    Expands(block, 48, 0x5f208ae2, 0x6b7e3537);
    Expands(block, 49, 0xaf1ad53e, 0x5ad20fd9);
    Expands(block, 50, 0x1f15795b, 0x0e377c6d);
    Expands(block, 51, 0xfd26c942, 0x38f924b5);
    Expands(block, 52, 0x5f72539e, 0xb992c50e);
    Expands(block, 53, 0x00000000, 0x00000000);
    Expands(block, 54, 0x0f42de9f, 0x2f8af851);
  }

  lemma Words55(block: seq<byte>)
    requires Known(block, 55)
    ensures Known(block, 68)
  {
    hide Known;
    Expands(block, 55, 0xa1a2d90f, 0x4af5d8b2);
    Expands(block, 56, 0x86f718d8, 0x66d8202f);
    Expands(block, 57, 0xd58697ba, 0x43313e32);
    Expands(block, 58, 0xa4536216, 0x1e0a198e);
    Expands(block, 59, 0x80cadb16, 0x6601fe1e);
    Expands(block, 60, 0xb0eb6fe5, 0xf5c1c227);
    Expands(block, 61, 0x6a7f5ba4, 0x15985136);
    Expands(block, 62, 0x8259e60d, 0x779e0bd2);
    Expands(block, 63, 0xf1a4d89a, 0xd0917224);
    Expands(block, 64, 0x3e272421, 0xbca8a8a0);
    Expands(block, 65, 0x00000000, 0x00000000);
    Expands(block, 66, 0x44ff45f2, 0x1f24182f);
    Expands(block, 67, 0xb9b3774c, 0xa449f22e);
  }

  // One round, on given values of its parts.
  lemma RoundsTo(w: seq<word>, w': seq<word>, s: State, n: nat,
                 tn: word, ff: word, gg: word, ss1: word, tt1: word, tt2: word) returns (next: State)
    requires n < 64 && Sees(w, w') && Rounds(IV, Constants(), w, w', n) == s && Turned(Constant(n), n) == tn
    requires FF(s.a, s.b, s.c, n) == ff && GG(s.e, s.f, s.g, n) == gg && SS1(s.a, s.e, tn) == ss1
    requires Add4(ff, s.d, Xor(ss1, Rotl(s.a, 12)), Xor(Word(n), Word(n + 4))) == tt1
    requires Add4(gg, s.h, ss1, Word(n)) == tt2
    ensures Rounds(IV, Constants(), w, w', n + 1) == next
    ensures next == State(tt1, s.a, Rotl(s.b, 9), s.c, SM3P0(tt2), s.e, Rotl(s.f, 19), s.g)
    ensures Turned(Constant(n), n + 1) == Rotl(tn, 1)
  {
    TurnedNext(Constant(n), n);
    next := Rounds(IV, Constants(), w, w', n + 1);
    hide FF, GG, SS1, Add4, SM3P0, Rotl, Turned, Xor, Word, Constant;
  }

  lemma TurnedNext(t: word, n: nat)
    ensures Turned(t, n + 1) == Rotl(Turned(t, n), 1)
  {
    hide Rotl, Turned;
    TurnedIsTurn(t, n);
    TurnedIsTurn(t, n + 1);
    FullTurn(t);
  }

  lemma TurnedIsTurn(t: word, n: nat)
    ensures Turned(t, n) == Turn(t, n % 32)
  {
    hide Rotl, Turn;
    TurnIsRotl(t, n % 32);
  }

  lemma FirstTurns()
    ensures Turned(Constant(0), 0) == 0x79cc4519 && Turned(Constant(16), 16) == 0x9d8a7a87
  {
  }

  lemma Rounds0(w: seq<word>, w': seq<word>)
    requires Sees(w, w')
    ensures Turned(Constant(7), 8) == 0xcc451979
    ensures Rounds(IV, Constants(), w, w', 8) ==
      State(0x1022ac97, 0x33130100, 0x94194e6e, 0x32aecc3f, 0x367250a1, 0x3391ec8a, 0xb1cd6787, 0x97545690)
  {
    NoRounds(w, w');
    FirstTurns();
    hide Rounds, Sees, Constants, Turned;
    var s := State(0x7380166f, 0x4914b2b9, 0x172442d7, 0xda8a0600, 0xa96f30bc, 0x163138aa, 0xe38dee4d, 0xb0fb0e4e);
    s := RoundsTo(w, w', s, 0, 0x79cc4519, 0x2db0e601, 0x5cd3e65b, 0x51368692, 0xb9edc12b, 0xc067debb);
    s := RoundsTo(w, w', s, 1, 0xf3988a32, 0xe308a5d6, 0xde92a8c1, 0x2c37e241, 0xea52428c, 0xee58794f);
    s := RoundsTo(w, w', s, 2, 0xe7311465, 0x53935d40, 0x9b7d58ae, 0xc78e96db, 0x609f2850, 0x285ca112);
    s := RoundsTo(w, w', s, 3, 0xce6228cb, 0x514f3daf, 0x30aa7ab1, 0x110267ca, 0x35037e59, 0xc7922df4);
    s := RoundsTo(w, w', s, 4, 0x9cc45197, 0xf1194fdd, 0xba07ff0d, 0x65182346, 0x1f995766, 0x6ec5b7bc);
    s := RoundsTo(w, w', s, 5, 0x3988a32f, 0x14ca89fe, 0x9d2cc063, 0xe88c092c, 0x374a0ca7, 0x56d62b38);
    s := RoundsTo(w, w', s, 6, 0x7311465e, 0x2e2fe9ab, 0x7cdf25d1, 0x665805e0, 0x33130100, 0x9315c587);
    s := RoundsTo(w, w', s, 7, 0xe6228cbc, 0x36f7c198, 0x08354c23, 0xe23e3ba4, 0x1022ac97, 0x457148c9);
  }

  lemma Rounds8(w: seq<word>, w': seq<word>)
    requires Sees(w, w') && Rounds(IV, Constants(), w, w', 8) ==
      State(0x1022ac97, 0x33130100, 0x94194e6e, 0x32aecc3f, 0x367250a1, 0x3391ec8a, 0xb1cd6787, 0x97545690)
    requires Turned(Constant(8), 8) == 0xcc451979
    ensures Turned(Constant(15), 16) == 0x451979cc
    ensures Rounds(IV, Constants(), w, w', 16) ==
      State(0x34d1691e, 0x7c529778, 0x92b57849, 0x979ab113, 0x61f99646, 0x3ee95933, 0x2aa0d251, 0xdb131b86)
  {
    hide Rounds, Sees, Constants, Turned;
    var s := State(0x1022ac97, 0x33130100, 0x94194e6e, 0x32aecc3f, 0x367250a1, 0x3391ec8a, 0xb1cd6787, 0x97545690);
    s := RoundsTo(w, w', s, 8, 0xcc451979, 0xb728e3f9, 0xb42edbac, 0xc06d8e16, 0xd47caf4c, 0x0bf0c052);
    s := RoundsTo(w, w', s, 9, 0x988a32f3, 0xe25c03bd, 0x38f7bf8a, 0x29b9ef67, 0x59c2744b, 0x147f1678);
    s := RoundsTo(w, w', s, 10, 0x311465e7, 0xc8e7f527, 0x297e0e98, 0x7e75188f, 0x481ba2a0, 0x0c44c3b6);
    s := RoundsTo(w, w', s, 11, 0x6228cbce, 0xe8874f43, 0x592f2f2a, 0x8143bb0f, 0x694a3d09, 0x5f7c9dcb);
    s := RoundsTo(w, w', s, 12, 0xc451979c, 0xa5b9091a, 0xea0837b5, 0xf9f1de02, 0x89cbcd58, 0x811d6c5a);
    s := RoundsTo(w, w', s, 13, 0x88a32f39, 0xd7c4b0c1, 0x47997b93, 0x74c99bd4, 0x24c95abc, 0x31d94c85);
    s := RoundsTo(w, w', s, 14, 0x11465e73, 0x39788536, 0xd55e10bb, 0x9e2309e0, 0x7c529778, 0x2cb93018);
    s := RoundsTo(w, w', s, 15, 0x228cbce6, 0xcf017cd7, 0xffb067e1, 0x76ceef45, 0x34d1691e, 0x22e445cb);
  }

  lemma Rounds16(w: seq<word>, w': seq<word>)
    requires Sees(w, w') && Rounds(IV, Constants(), w, w', 16) ==
      State(0x34d1691e, 0x7c529778, 0x92b57849, 0x979ab113, 0x61f99646, 0x3ee95933, 0x2aa0d251, 0xdb131b86)
    ensures Turned(Constant(23), 24) == 0x8a7a879d
    ensures Rounds(IV, Constants(), w, w', 24) ==
      State(0xf368da78, 0xeeeec41a, 0x185f9a9a, 0x8af12c05, 0x6a879032, 0xb5523911, 0xe84abb78, 0x340ba2bb)
  {
    FirstTurns();
    hide Rounds, Sees, Constants, Turned;
    var s := State(0x34d1691e, 0x7c529778, 0x92b57849, 0x979ab113, 0x61f99646, 0x3ee95933, 0x2aa0d251, 0xdb131b86);
    s := RoundsTo(w, w', s, 16, 0x9d8a7a87, 0x34d17958, 0x2ae95013, 0x0afa0d0b, 0x796afab1, 0xa1895aa4);
    s := RoundsTo(w, w', s, 17, 0x3b14f50f, 0x356af8b8, 0xc9f9b74e, 0x9aaecd78, 0x7d27cc0e, 0x8f495717);
    s := RoundsTo(w, w', s, 18, 0x7629ea1e, 0x7962fc29, 0x027349d5, 0x599c45d3, 0xd7820ad1, 0x25b58cf8);
    s := RoundsTo(w, w', s, 19, 0xec53d43c, 0xd5a74ad2, 0x93e826ba, 0x2e94c632, 0xf84fd372, 0xe64c6da5);
    s := RoundsTo(w, w', s, 20, 0xd8a7a879, 0xdf8a1af2, 0x155d36d2, 0xdde1773d, 0x02c57896, 0x7ae6e1b9);
    s := RoundsTo(w, w', s, 21, 0xb14f50f3, 0x0045f3b6, 0xaed4fae1, 0x980bd03e, 0x4d0c2fcd, 0xfbbfe981);
    s := RoundsTo(w, w', s, 22, 0x629ea1e7, 0x0f846dd4, 0x54c726e7, 0x8549e03e, 0xeeeec41a, 0x2c733faf);
    s := RoundsTo(w, w', s, 23, 0xc53d43ce, 0xceec2c0d, 0x154b9bab, 0x6895e6b3, 0xf368da78, 0xd56eb145);
  }

  lemma Rounds24(w: seq<word>, w': seq<word>)
    requires Sees(w, w') && Rounds(IV, Constants(), w, w', 24) ==
      State(0xf368da78, 0xeeeec41a, 0x185f9a9a, 0x8af12c05, 0x6a879032, 0xb5523911, 0xe84abb78, 0x340ba2bb)
    requires Turned(Constant(24), 24) == 0x8a7a879d
    ensures Turned(Constant(31), 32) == 0x7a879d8a
    ensures Rounds(IV, Constants(), w, w', 32) ==
      State(0x89a13e59, 0xa5a4a2b3, 0x37593bff, 0x3d708fc2, 0x0a1ff572, 0xe92df4ea, 0xa36cc08d, 0x74b72db2)
  {
    hide Rounds, Sees, Constants, Turned;
    var s := State(0xf368da78, 0xeeeec41a, 0x185f9a9a, 0x8af12c05, 0x6a879032, 0xb5523911, 0xe84abb78, 0x340ba2bb);
    s := RoundsTo(w, w', s, 24, 0x8a7a879d, 0xfa6eda1a, 0xa04a3b58, 0x54d382c1, 0x15ce1286, 0x559902cd);
    s := RoundsTo(w, w', s, 25, 0x14f50f3b, 0xd5c812dc, 0xea8f9891, 0x11d1f5ac, 0xc3fd31c2, 0x925738c9);
    s := RoundsTo(w, w', s, 26, 0x29ea1e76, 0xd1fc31c6, 0xc006537c, 0x5decfc25, 0x6243be5e, 0xe680fa32);
    s := RoundsTo(w, w', s, 27, 0x53d43cec, 0xc2653c4a, 0x89b30243, 0x65bb0751, 0xa549beaa, 0x7102ddee);
    s := RoundsTo(w, w', s, 28, 0xa7a879d8, 0xe243be8e, 0x331b4eac, 0x7c839a89, 0xe11eb847, 0xe4d858ef);
    s := RoundsTo(w, w', s, 29, 0x4f50f3b1, 0xa55cbcc6, 0xd764d208, 0x45e02c10, 0xff9bac9d, 0xe0d06c0c);
    s := RoundsTo(w, w', s, 30, 0x9ea1e762, 0xf31fbc4f, 0x805e4f06, 0xbebde478, 0xa5a4a2b3, 0xfadb52a9);
    s := RoundsTo(w, w', s, 31, 0x3d43cec5, 0xbdb0ae93, 0x9c93bd78, 0x4e7f04b8, 0x89a13e59, 0xb6326c7a);
  }

  lemma Rounds32(w: seq<word>, w': seq<word>)
    requires Sees(w, w') && Rounds(IV, Constants(), w, w', 32) ==
      State(0x89a13e59, 0xa5a4a2b3, 0x37593bff, 0x3d708fc2, 0x0a1ff572, 0xe92df4ea, 0xa36cc08d, 0x74b72db2)
    requires Turned(Constant(32), 32) == 0x7a879d8a
    ensures Turned(Constant(39), 40) == 0x879d8a7a
    ensures Rounds(IV, Constants(), w, w', 40) ==
      State(0x19f363f9, 0x2f13c4ad, 0x4a0b31ce, 0x85ae57c2, 0xc302badb, 0x1a6cabc9, 0xfe9e3fc9, 0xac36a284)
  {
    hide Rounds, Sees, Constants, Turned;
    var s := State(0x89a13e59, 0xa5a4a2b3, 0x37593bff, 0x3d708fc2, 0x0a1ff572, 0xe92df4ea, 0xa36cc08d, 0x74b72db2);
    s := RoundsTo(w, w', s, 32, 0x7a879d8a, 0xa5a13afb, 0xa96df4ef, 0x4695cb4c, 0x3720bd4e, 0x4695d125);
    s := RoundsTo(w, w', s, 33, 0xf50f3b14, 0x09213f4b, 0x2a1f5d6e, 0x309a84e8, 0x9ccd089c, 0xf62cbaea);
    s := RoundsTo(w, w', s, 34, 0xea1e7629, 0x166cb91e, 0xeb1c52a3, 0x9a61aa4a, 0xc7a0744d, 0x3232af1a);
    s := RoundsTo(w, w', s, 35, 0xd43cec53, 0xc5e81c4c, 0xbc0e83fb, 0x6d63f472, 0xd955c3ed, 0x5bd29ded);
    s := RoundsTo(w, w', s, 36, 0xa879d8a7, 0xdb11716d, 0x1bdcf41b, 0xf6539de4, 0xe142d72b, 0xe5938b6a);
    s := RoundsTo(w, w', s, 37, 0x50f3b14f, 0xc140d3af, 0xec98dac7, 0x5b8274a9, 0xe7250598, 0x3c1c6193);
    s := RoundsTo(w, w', s, 38, 0xa1e7629e, 0xe307d7ba, 0xc456158e, 0x1d1871dd, 0x2f13c4ad, 0xf29f6b12);
    s := RoundsTo(w, w', s, 39, 0x43cec53d, 0xa7274588, 0xa67a2bc5, 0x4321fbcd, 0x19f363f9, 0x51a06938);
  }

  lemma Rounds40(w: seq<word>, w': seq<word>)
    requires Sees(w, w') && Rounds(IV, Constants(), w, w', 40) ==
      State(0x19f363f9, 0x2f13c4ad, 0x4a0b31ce, 0x85ae57c2, 0xc302badb, 0x1a6cabc9, 0xfe9e3fc9, 0xac36a284)
    requires Turned(Constant(40), 40) == 0x879d8a7a
    ensures Turned(Constant(47), 48) == 0x9d8a7a87
    ensures Rounds(IV, Constants(), w, w', 48) ==
      State(0x47c5be50, 0xe51076b3, 0x12150da4, 0xd0b273b0, 0x3567734e, 0xd9f89e61, 0xb1297299, 0xefac7743)
  {
    hide Rounds, Sees, Constants, Turned;
    var s := State(0x19f363f9, 0x2f13c4ad, 0x4a0b31ce, 0x85ae57c2, 0xc302badb, 0x1a6cabc9, 0xfe9e3fc9, 0xac36a284);
    s := RoundsTo(w, w', s, 40, 0x879d8a7a, 0x0b1361ed, 0x3e9cafc9, 0x6feb7a40, 0x55e1dde2, 0x5fccc1e9);
    s := RoundsTo(w, w', s, 41, 0x0f3b14f5, 0x15e15bfa, 0x5b40fbeb, 0x5b739139, 0xd4f4efe3, 0x8332dd39);
    s := RoundsTo(w, w', s, 42, 0x1e7629ea, 0xd4e5ffe3, 0xc69db84f, 0x3807c9e5, 0x48dcbc62, 0x02a81eee);
    s := RoundsTo(w, w', s, 43, 0x3cec53d4, 0xc0fcece3, 0x4c7ba85e, 0xfe200e3b, 0x8237b8a0, 0xc958d032);
    s := RoundsTo(w, w', s, 44, 0x79d8a7a8, 0xc8dfbca0, 0x4a4bc7dd, 0xffeb6e66, 0xd8685939, 0x1ef83038);
    s := RoundsTo(w, w', s, 45, 0xf3b14f50, 0x9878d8b1, 0xb99b271b, 0x16b56584, 0xd2090a86, 0xf6de3274);
    s := RoundsTo(w, w', s, 46, 0xe7629ea1, 0xda694904, 0x1eccf4ed, 0x2f20f353, 0xe51076b3, 0xfc9406b0);
    s := RoundsTo(w, w', s, 47, 0xcec53d43, 0xd01072b2, 0x2e547723, 0x148cfad8, 0x47c5be50, 0x7ec3e634);
  }

  lemma Rounds48(w: seq<word>, w': seq<word>)
    requires Sees(w, w') && Rounds(IV, Constants(), w, w', 48) ==
      State(0x47c5be50, 0xe51076b3, 0x12150da4, 0xd0b273b0, 0x3567734e, 0xd9f89e61, 0xb1297299, 0xefac7743)
    requires Turned(Constant(48), 48) == 0x9d8a7a87
    ensures Turned(Constant(55), 56) == 0x8a7a879d
    ensures Rounds(IV, Constants(), w, w', 56) ==
      State(0x22a79585, 0x549db4b7, 0x825d05e8, 0x01da5e94, 0x9d4db19a, 0xf6bc15ed, 0x03e3a14c, 0xb3a83a0f)
  {
    hide Rounds, Sees, Constants, Turned;
    var s := State(0x47c5be50, 0xe51076b3, 0x12150da4, 0xd0b273b0, 0x3567734e, 0xd9f89e61, 0xb1297299, 0xefac7743);
    s := RoundsTo(w, w', s, 48, 0x9d8a7a87, 0x47153eb0, 0x916812d1, 0x6b792897, 0xabddbdc8, 0x95bb6f4c);
    s := RoundsTo(w, w', s, 49, 0x3b14f50f, 0x23cdbfc8, 0xf76653c4, 0x772e6eaa, 0xbd708003, 0x7ef204d9);
    s := RoundsTo(w, w', s, 50, 0x7629ea1e, 0xab7ca08b, 0x1978e93b, 0xb9b8da88, 0x15e2f5d3, 0xa7b00210);
    s := RoundsTo(w, w', s, 51, 0xec53d43c, 0xbd729153, 0xab09cbc0, 0xa338ecef, 0x13826486, 0xdfc44d2b);
    s := RoundsTo(w, w', s, 52, 0xd8a7a879, 0x118265d2, 0xd3053e5e, 0xfcd766e5, 0x4a00ed2f, 0x82baf805);
    s := RoundsTo(w, w', s, 53, 0xb14f50f3, 0x4382e42f, 0x65bfac9e, 0xb21e0463, 0xf4412e82, 0xfb8b4c9d);
    s := RoundsTo(w, w', s, 54, 0x629ea1e7, 0x44412c27, 0x0cc7e875, 0xd828d3f4, 0x549db4b7, 0xbd9e3baa);
    s := RoundsTo(w, w', s, 55, 0xc53d43ce, 0x54d93e96, 0x75282a6e, 0xa267824b, 0x22a79585, 0x0998d2b8);
  }

  lemma Rounds56(w: seq<word>, w': seq<word>)
    requires Sees(w, w') && Rounds(IV, Constants(), w, w', 56) ==
      State(0x22a79585, 0x549db4b7, 0x825d05e8, 0x01da5e94, 0x9d4db19a, 0xf6bc15ed, 0x03e3a14c, 0xb3a83a0f)
    requires Turned(Constant(56), 56) == 0x8a7a879d
    ensures Turned(Constant(63), 64) == 0x7a879d8a
    ensures Rounds(IV, Constants(), w, w', 64) ==
      State(0x1547e69b, 0x2bfa5f60, 0xc6d696bc, 0x069ae2e2, 0xe808f43b, 0x4ac3cf08, 0xcaf04e66, 0x3fb0a6ae)
  {
    hide Rounds, Sees, Constants, Turned;
    var s := State(0x22a79585, 0x549db4b7, 0x825d05e8, 0x01da5e94, 0x9d4db19a, 0xf6bc15ed, 0x03e3a14c, 0xb3a83a0f);
    s := RoundsTo(w, w', s, 56, 0x8a7a879d, 0x029d95a5, 0x96ae11cc, 0x9045b0d0, 0x30245b78, 0x42d389a0);
    s := RoundsTo(w, w', s, 57, 0x14f50f3b, 0x32255fa9, 0x9d6fb1e2, 0x966f5fa8, 0x6598314f, 0xcf1b061a);
    s := RoundsTo(w, w', s, 58, 0x29ea1e76, 0x65281b4d, 0xfcd44ecf, 0x10e140d1, 0xc3d629a9, 0xc625cca3);
    s := RoundsTo(w, w', s, 59, 0x53d43cec, 0x41963169, 0x7426b522, 0xb4f046e5, 0xddb0a26a, 0x3ce6d4e8);
    s := RoundsTo(w, w', s, 60, 0xa7a879d8, 0xd1f2aaeb, 0x359b8545, 0x37528785, 0x71034d71, 0xfbbec97c);
    s := RoundsTo(w, w', s, 61, 0x4f50f3b1, 0xfd134363, 0x3bb5655c, 0x7ee95bcc, 0x5e636b4b, 0x729b268d);
    s := RoundsTo(w, w', s, 62, 0x9ea1e762, 0x71434d7b, 0xe2e6c5f7, 0x91bb536f, 0x2bfa5f60, 0x36112f46);
    s := RoundsTo(w, w', s, 63, 0x3d43cec5, 0x0efa6b62, 0x3df0e9ae, 0xfed04616, 0x1547e69b, 0x18225a4f);
  }

  lemma NoRounds(w: seq<word>, w': seq<word>)
    requires Sees(w, w')
    ensures Rounds(IV, Constants(), w, w', 0) == IV
  {
  }

  /// The padded message and its digest.

  lemma {:induction false} NoBytes(n: nat)
    ensures BigEndian(0, n) == ZeroBytes(n)
  {
    if n > 0 {
      NoBytes(n - 1);
    }
  }

  lemma LengthBytes(x: nat)
    requires x == 24
    ensures BigEndian(x, 8) == ZeroBytes(7) + [0x18]
  {
    NoBytes(7);
    assert x / 256 == 0 && x % 256 == 24;
  }

  lemma PaddedBytes(p: seq<byte>)
    requires p == CodePad(ABC)
    ensures |p| == 64 && p[0] == 0x61 && p[1] == 0x62 && p[2] == 0x63 && p[3] == 0x80 && p[63] == 0x18
    ensures forall k :: 4 <= k < 63 ==> p[k] == 0
  {
    hide BigEndian, ZeroBytes;
    LengthBytes(8 * |ABC|);
    assert |p| == 64 && p == ABC + [0x80] + ZeroBytes(52) + (ZeroBytes(7) + [0x18]);
  }

  lemma PaddedWords(p: seq<byte>)
    requires p == CodePad(ABC)
    ensures Known(p, 16)
  {
    hide CodePad;
    PaddedBytes(p);
    forall k | 0 <= k < 16 ensures W(p, k) == Word(k) {
      WHead(p, k);
    }
  }

  lemma BlockExpands(p: seq<byte>)
    requires Known(p, 16)
    ensures Sees(Expanded(p), ExpandedPrime(p))
  {
    hide W, Word;
    Words16(p);
    Words29(p);
    Words42(p);
    Words55(p);
  }

  lemma BlockCompresses(w: seq<word>, w': seq<word>)
    requires Sees(w, w')
    ensures Compress(IV, Constants(), w, w') ==
      State(0x66c7f0f4, 0x62eeedd9, 0xd1f2d46b, 0xdc10e4e2, 0x4167c487, 0x5cf2f7a2, 0x297da02b, 0x8f4ba8e0)
  {
    hide Rounds, Constants, Turned;
    Rounds0(w, w');
    Rounds8(w, w');
    Rounds16(w, w');
    Rounds24(w, w');
    Rounds32(w, w');
    Rounds40(w, w');
    Rounds48(w, w');
    Rounds56(w, w');
  }

  lemma OneBlock(p: seq<byte>)
    requires |p| == 64
    ensures Digest(p) == Compress(IV, Constants(), Expanded(p), ExpandedPrime(p))
  {
    hide Compress, Expanded, ExpandedPrime, Constants;
    assert p[0..64] == p && Iterate(p, 0) == IV;
  }

  // The digest of the example.
  lemma StandardExample()
    ensures Digest(CodePad(ABC)) ==
      State(0x66c7f0f4, 0x62eeedd9, 0xd1f2d46b, 0xdc10e4e2, 0x4167c487, 0x5cf2f7a2, 0x297da02b, 0x8f4ba8e0)
  {
    hide CodePad, Compress, Sees, Expanded, ExpandedPrime, Constants, Digest, W, Word;
    var p := CodePad(ABC);
    PaddedWords(p);
    OneBlock(p);
    BlockExpands(p);
    BlockCompresses(Expanded(p), ExpandedPrime(p));
  }
}
