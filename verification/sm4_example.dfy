/// The run that main of sm_tlm_uart/sm4.c makes, with the key and the block of the example in annex A.1 of
/// GB/T 32907-2016.

module Sm4Example {
  import opened Words
  import opened NiceReference
  import opened Mixing
  import opened Sm4
  import SboxRom

  const KEY := Block(0x01234567, 0x89abcdef, 0xfedcba98, 0x76543210)

  // The substitution by the table of Sbox.v, which is quick to look up.
  function Substituted(a: word): word
  {
    Join(SboxRom.DataOut((a >> 24) as byte), SboxRom.DataOut(((a >> 16) & 0xff) as byte),
         SboxRom.DataOut(((a >> 8) & 0xff) as byte), SboxRom.DataOut((a & 0xff) as byte))
  }

  lemma Substitutes(a: word)
    ensures SM4Nonlinear(a) == Substituted(a)
  {
    hide Sbox, SboxRom.DataOut;
    SboxRom.SameTable((a >> 24) as byte);
    SboxRom.SameTable(((a >> 16) & 0xff) as byte);
    SboxRom.SameTable(((a >> 8) & 0xff) as byte);
    SboxRom.SameTable((a & 0xff) as byte);
  }

  // One round of either, on given values: a is the inner sum, b what the table makes of it, w the new word.
  lemma KeyRound(x: Block, ks: seq<word>, n: nat, y: Block, a: word, b: word, w: word)
    requires n < |ks| && Rounds(KeyT, x, ks[..n]) == y
    requires Sum(y.b, y.c, y.d, ks[n]) == a && Substituted(a) == b && Xor(y.a, SM4Linear(b, 0)) == w
    ensures Rounds(KeyT, x, ks[..n + 1]) == Block(y.b, y.c, y.d, w)
  {
    Substitutes(a);
    hide Substituted, SM4Linear, SM4Nonlinear, Sum, Xor;
    assert ks[..n + 1][..n] == ks[..n];
  }

  lemma DataRound(x: Block, ks: seq<word>, n: nat, y: Block, a: word, b: word, w: word)
    requires n < |ks| && Rounds(DataT, x, ks[..n]) == y
    requires Sum(y.b, y.c, y.d, ks[n]) == a && Substituted(a) == b && Xor(y.a, SM4Linear(b, 1)) == w
    ensures Rounds(DataT, x, ks[..n + 1]) == Block(y.b, y.c, y.d, w)
  {
    Substitutes(a);
    hide Substituted, SM4Linear, SM4Nonlinear, Sum, Xor;
    assert ks[..n + 1][..n] == ks[..n];
  }

  lemma Starts(ks: seq<word>)
    ensures Masked(KEY) == Block(0xa292ffa1, 0xdf01febf, 0x99a12b0f, 0xc42410cc)
    ensures Rounds(KeyT, Masked(KEY), ks[..0]) == Masked(KEY) && Rounds(DataT, KEY, ks[..0]) == KEY
  {
  }

  lemma Keys0()
    ensures Rounds(KeyT, Masked(KEY), Constants()[..2]) == Block(0x99a12b0f, 0xc42410cc, 0xf12186f9, 0x41662b61)
    ensures RoundKey(KEY, 0) == 0xf12186f9 && RoundKey(KEY, 1) == 0x41662b61
  {
    Starts(Constants());
    var x := Masked(KEY);
    hide CkWord, Masked, Rounds, KeyT;
    Rule0();
    KeyRound(x, Constants(), 0, Block(0xa292ffa1, 0xdf01febf, 0x99a12b0f, 0xc42410cc),
             0x8283cb69, 0x8ad24122, 0xf12186f9);
    KeyRound(x, Constants(), 1, Block(0xdf01febf, 0x99a12b0f, 0xc42410cc, 0xf12186f9),
             0xb087970b, 0xd5b555c2, 0x41662b61);
  }

  lemma Keys2()
    requires Rounds(KeyT, Masked(KEY), Constants()[..2]) == Block(0x99a12b0f, 0xc42410cc, 0xf12186f9, 0x41662b61)
    ensures Rounds(KeyT, Masked(KEY), Constants()[..4]) == Block(0xf12186f9, 0x41662b61, 0x5a6ab19a, 0x7ba92077)
    ensures RoundKey(KEY, 2) == 0x5a6ab19a && RoundKey(KEY, 3) == 0x7ba92077
  {
    var x := Masked(KEY);
    hide CkWord, Masked, Rounds, KeyT;
    Rule0();
    KeyRound(x, Constants(), 2, Block(0x99a12b0f, 0xc42410cc, 0xf12186f9, 0x41662b61),
             0x4c5cfb19, 0xe6703e44, 0x5a6ab19a);
    KeyRound(x, Constants(), 3, Block(0xc42410cc, 0xf12186f9, 0x41662b61, 0x5a6ab19a),
             0xbe767e6b, 0x5b27c83b, 0x7ba92077);
  }

  lemma Keys4()
    requires Rounds(KeyT, Masked(KEY), Constants()[..4]) == Block(0xf12186f9, 0x41662b61, 0x5a6ab19a, 0x7ba92077)
    ensures Rounds(KeyT, Masked(KEY), Constants()[..6]) == Block(0x5a6ab19a, 0x7ba92077, 0x367360f4, 0x776a0c61)
    ensures RoundKey(KEY, 4) == 0x367360f4 && RoundKey(KEY, 5) == 0x776a0c61
  {
    var x := Masked(KEY);
    hide CkWord, Masked, Rounds, KeyT;
    Rule1();
    KeyRound(x, Constants(), 4, Block(0xf12186f9, 0x41662b61, 0x5a6ab19a, 0x7ba92077),
             0x10d2c409, 0x2b31bbb6, 0x367360f4);
    KeyRound(x, Constants(), 5, Block(0x41662b61, 0x5a6ab19a, 0x7ba92077, 0x367360f4),
             0x9b236bb8, 0x30f43b03, 0x776a0c61);
  }

  lemma Keys6()
    requires Rounds(KeyT, Masked(KEY), Constants()[..6]) == Block(0x5a6ab19a, 0x7ba92077, 0x367360f4, 0x776a0c61)
    ensures Rounds(KeyT, Masked(KEY), Constants()[..8]) == Block(0x367360f4, 0x776a0c61, 0xb6bb89b3, 0x24763151)
    ensures RoundKey(KEY, 6) == 0xb6bb89b3 && RoundKey(KEY, 7) == 0x24763151
  {
    var x := Masked(KEY);
    hide CkWord, Masked, Rounds, KeyT;
    Rule1();
    KeyRound(x, Constants(), 6, Block(0x5a6ab19a, 0x7ba92077, 0x367360f4, 0x776a0c61),
             0x921ffa5f, 0x5d995f35, 0xb6bb89b3);
    KeyRound(x, Constants(), 7, Block(0x7ba92077, 0x367360f4, 0x776a0c61, 0xb6bb89b3),
             0x336937ff, 0xa9229548, 0x24763151);
  }

  lemma Keys8()
    requires Rounds(KeyT, Masked(KEY), Constants()[..8]) == Block(0x367360f4, 0x776a0c61, 0xb6bb89b3, 0x24763151)
    ensures Rounds(KeyT, Masked(KEY), Constants()[..10]) == Block(0xb6bb89b3, 0x24763151, 0xa520307c, 0xb7584dbd)
    ensures RoundKey(KEY, 8) == 0xa520307c && RoundKey(KEY, 9) == 0xb7584dbd
  {
    var x := Masked(KEY);
    hide CkWord, Masked, Rounds, KeyT;
    Rule2();
    KeyRound(x, Constants(), 8, Block(0x367360f4, 0x776a0c61, 0xb6bb89b3, 0x24763151),
             0x05405a76, 0xe1470f27, 0xa520307c);
    KeyRound(x, Constants(), 9, Block(0x776a0c61, 0xb6bb89b3, 0x24763151, 0xa520307c),
             0xcbee828f, 0x41c68aa1, 0xb7584dbd);
  }

  lemma Keys10()
    requires Rounds(KeyT, Masked(KEY), Constants()[..10]) == Block(0xb6bb89b3, 0x24763151, 0xa520307c, 0xb7584dbd)
    ensures Rounds(KeyT, Masked(KEY), Constants()[..12]) == Block(0xa520307c, 0xb7584dbd, 0xc30753ed, 0x7ee55b57)
    ensures RoundKey(KEY, 10) == 0xc30753ed && RoundKey(KEY, 11) == 0x7ee55b57
  {
    var x := Masked(KEY);
    hide CkWord, Masked, Rounds, KeyT;
    Rule2();
    KeyRound(x, Constants(), 10, Block(0xb6bb89b3, 0x24763151, 0xa520307c, 0xb7584dbd),
             0x2e116abd, 0xac677c6c, 0xc30753ed);
    KeyRound(x, Constants(), 11, Block(0x24763151, 0xa520307c, 0xb7584dbd, 0xc30753ed),
             0xe5446c65, 0x96f30158, 0x7ee55b57);
  }

  lemma Keys12()
    requires Rounds(KeyT, Masked(KEY), Constants()[..12]) == Block(0xa520307c, 0xb7584dbd, 0xc30753ed, 0x7ee55b57)
    ensures Rounds(KeyT, Masked(KEY), Constants()[..14]) == Block(0xc30753ed, 0x7ee55b57, 0x6988608c, 0x30d895b7)
    ensures RoundKey(KEY, 12) == 0x6988608c && RoundKey(KEY, 13) == 0x30d895b7
  {
    var x := Masked(KEY);
    hide CkWord, Masked, Rounds, KeyT;
    Rule3();
    KeyRound(x, Constants(), 12, Block(0xa520307c, 0xb7584dbd, 0xc30753ed, 0x7ee55b57),
             0x5aed1b62, 0x0f6e260e, 0x6988608c);
    KeyRound(x, Constants(), 13, Block(0xb7584dbd, 0xc30753ed, 0x7ee55b57, 0x6988608c),
             0xb81912b7, 0x03449a2f, 0x30d895b7);
  }

  lemma Keys14()
    requires Rounds(KeyT, Masked(KEY), Constants()[..14]) == Block(0xc30753ed, 0x7ee55b57, 0x6988608c, 0x30d895b7)
    ensures Rounds(KeyT, Masked(KEY), Constants()[..16]) == Block(0x6988608c, 0x30d895b7, 0x44ba14af, 0x104495a1)
    ensures RoundKey(KEY, 14) == 0x44ba14af && RoundKey(KEY, 15) == 0x104495a1
  {
    var x := Masked(KEY);
    hide CkWord, Masked, Rounds, KeyT;
    Rule3();
    KeyRound(x, Constants(), 14, Block(0xc30753ed, 0x7ee55b57, 0x6988608c, 0x30d895b7),
             0xaf3a38f1, 0x6f9480f0, 0x44ba14af);
    KeyRound(x, Constants(), 15, Block(0x7ee55b57, 0x6988608c, 0x30d895b7, 0x44ba14af),
             0xb941532d, 0xff07b2cf, 0x104495a1);
  }

  lemma Keys16()
    requires Rounds(KeyT, Masked(KEY), Constants()[..16]) == Block(0x6988608c, 0x30d895b7, 0x44ba14af, 0x104495a1)
    ensures Rounds(KeyT, Masked(KEY), Constants()[..18]) == Block(0x44ba14af, 0x104495a1, 0xd120b428, 0x73b55fa3)
    ensures RoundKey(KEY, 16) == 0xd120b428 && RoundKey(KEY, 17) == 0x73b55fa3
  {
    var x := Masked(KEY);
    hide CkWord, Masked, Rounds, KeyT;
    Rule4();
    KeyRound(x, Constants(), 16, Block(0x6988608c, 0x30d895b7, 0x44ba14af, 0x104495a1),
             0xa4e1da6c, 0x8269d001, 0xd120b428);
    KeyRound(x, Constants(), 17, Block(0x30d895b7, 0x44ba14af, 0x104495a1, 0xd120b428),
             0x593ddfd7, 0xeb8fb0bd, 0x73b55fa3);
  }

  lemma Keys18()
    requires Rounds(KeyT, Masked(KEY), Constants()[..18]) == Block(0x44ba14af, 0x104495a1, 0xd120b428, 0x73b55fa3)
    ensures Rounds(KeyT, Masked(KEY), Constants()[..20]) == Block(0xd120b428, 0x73b55fa3, 0xcc874966, 0x92244439)
    ensures RoundKey(KEY, 18) == 0xcc874966 && RoundKey(KEY, 19) == 0x92244439
  {
    var x := Masked(KEY);
    hide CkWord, Masked, Rounds, KeyT;
    Rule4();
    KeyRound(x, Constants(), 18, Block(0x44ba14af, 0x104495a1, 0xd120b428, 0x73b55fa3),
             0x4a2e7827, 0x3cac4c7a, 0xcc874966);
    KeyRound(x, Constants(), 19, Block(0x104495a1, 0xd120b428, 0x73b55fa3, 0xcc874966),
             0x7a0980c4, 0x02b6eabb, 0x92244439);
  }

  lemma Keys20()
    requires Rounds(KeyT, Masked(KEY), Constants()[..20]) == Block(0xd120b428, 0x73b55fa3, 0xcc874966, 0x92244439)
    ensures Rounds(KeyT, Masked(KEY), Constants()[..22]) == Block(0xcc874966, 0x92244439, 0xe89e641f, 0x98ca015a)
    ensures RoundKey(KEY, 20) == 0xe89e641f && RoundKey(KEY, 21) == 0x98ca015a
  {
    var x := Masked(KEY);
    hide CkWord, Masked, Rounds, KeyT;
    Rule5();
    KeyRound(x, Constants(), 20, Block(0xd120b428, 0x73b55fa3, 0xcc874966, 0x92244439),
             0x1d216cb9, 0x864201ff, 0xe89e641f);
    KeyRound(x, Constants(), 21, Block(0x73b55fa3, 0xcc874966, 0x92244439, 0xe89e641f),
             0xfa6e3321, 0x5f78a942, 0x98ca015a);
  }

  lemma Keys22()
    requires Rounds(KeyT, Masked(KEY), Constants()[..22]) == Block(0xcc874966, 0x92244439, 0xe89e641f, 0x98ca015a)
    ensures Rounds(KeyT, Masked(KEY), Constants()[..24]) == Block(0xe89e641f, 0x98ca015a, 0xc7159060, 0x99e1fd2e)
    ensures RoundKey(KEY, 22) == 0xc7159060 && RoundKey(KEY, 23) == 0x99e1fd2e
  {
    var x := Masked(KEY);
    hide CkWord, Masked, Rounds, KeyT;
    Rule5();
    KeyRound(x, Constants(), 22, Block(0xcc874966, 0x92244439, 0xe89e641f, 0x98ca015a),
             0x8a1f5701, 0xf2998b90, 0xc7159060);
    KeyRound(x, Constants(), 23, Block(0x92244439, 0xe89e641f, 0x98ca015a, 0xc7159060),
             0x33ca67bc, 0xa95ca26d, 0x99e1fd2e);
  }

  lemma Keys24()
    requires Rounds(KeyT, Masked(KEY), Constants()[..24]) == Block(0xe89e641f, 0x98ca015a, 0xc7159060, 0x99e1fd2e)
    ensures Rounds(KeyT, Masked(KEY), Constants()[..26]) == Block(0xc7159060, 0x99e1fd2e, 0xb79bd80c, 0x1d2115b0)
    ensures RoundKey(KEY, 24) == 0xb79bd80c && RoundKey(KEY, 25) == 0x1d2115b0
  {
    var x := Masked(KEY);
    hide CkWord, Masked, Rounds, KeyT;
    Rule6();
    KeyRound(x, Constants(), 24, Block(0xe89e641f, 0x98ca015a, 0xc7159060, 0x99e1fd2e),
             0x6699c2a1, 0xd193aff6, 0xb79bd80c);
    KeyRound(x, Constants(), 25, Block(0x98ca015a, 0xc7159060, 0x99e1fd2e, 0xb79bd80c),
             0x55ac7f93, 0x640d9ea4, 0x1d2115b0);
  }

  lemma Keys26()
    requires Rounds(KeyT, Masked(KEY), Constants()[..26]) == Block(0xc7159060, 0x99e1fd2e, 0xb79bd80c, 0x1d2115b0)
    ensures Rounds(KeyT, Masked(KEY), Constants()[..28]) == Block(0xb79bd80c, 0x1d2115b0, 0x0e228aeb, 0xf1780c81)
    ensures RoundKey(KEY, 26) == 0x0e228aeb && RoundKey(KEY, 27) == 0xf1780c81
  {
    var x := Masked(KEY);
    hide CkWord, Masked, Rounds, KeyT;
    Rule6();
    KeyRound(x, Constants(), 26, Block(0xc7159060, 0x99e1fd2e, 0xb79bd80c, 0x1d2115b0),
             0xeb84d67f, 0x09407b9e, 0x0e228aeb);
    KeyRound(x, Constants(), 27, Block(0x99e1fd2e, 0xb79bd80c, 0x1d2115b0, 0x0e228aeb),
             0x5063455e, 0x685e739d, 0xf1780c81);
  }

  lemma Keys28()
    requires Rounds(KeyT, Masked(KEY), Constants()[..28]) == Block(0xb79bd80c, 0x1d2115b0, 0x0e228aeb, 0xf1780c81)
    ensures Rounds(KeyT, Masked(KEY), Constants()[..30]) == Block(0x0e228aeb, 0xf1780c81, 0x428d3654, 0x62293496)
    ensures RoundKey(KEY, 28) == 0x428d3654 && RoundKey(KEY, 29) == 0x62293496
  {
    var x := Masked(KEY);
    hide CkWord, Masked, Rounds, KeyT;
    Rule7();
    KeyRound(x, Constants(), 28, Block(0xb79bd80c, 0x1d2115b0, 0x0e228aeb, 0xf1780c81),
             0xf26c8dff, 0x7d016148, 0x428d3654);
    KeyRound(x, Constants(), 29, Block(0x1d2115b0, 0x0e228aeb, 0xf1780c81, 0x428d3654),
             0x91e48a7f, 0xae0cf29e, 0x62293496);
  }

  lemma Keys30()
    requires Rounds(KeyT, Masked(KEY), Constants()[..30]) == Block(0x0e228aeb, 0xf1780c81, 0x428d3654, 0x62293496)
    ensures Rounds(KeyT, Masked(KEY), Constants()[..32]) == Block(0x428d3654, 0x62293496, 0x01cf72e5, 0x9124a012)
    ensures RoundKey(KEY, 30) == 0x01cf72e5 && RoundKey(KEY, 31) == 0x9124a012
  {
    var x := Masked(KEY);
    hide CkWord, Masked, Rounds, KeyT;
    Rule7();
    KeyRound(x, Constants(), 30, Block(0x0e228aeb, 0xf1780c81, 0x428d3654, 0x62293496),
             0x9993581e, 0x93a4f806, 0x01cf72e5);
    KeyRound(x, Constants(), 31, Block(0xf1780c81, 0x428d3654, 0x62293496, 0x01cf72e5),
             0x4500025e, 0x73d6e99d, 0x9124a012);
  }

  lemma Rounds0(rk: seq<word>)
    requires |rk| == 32
    requires rk[0] == 0xf12186f9 && rk[1] == 0x41662b61 && rk[2] == 0x5a6ab19a && rk[3] == 0x7ba92077
    ensures Rounds(DataT, KEY, rk[..4]) == Block(0x27fad345, 0xa18b4cb2, 0x11c1e22a, 0xcc13e2ee)
  {
    Starts(rk);
    hide Rounds, DataT;
    DataRound(KEY, rk, 0, Block(0x01234567, 0x89abcdef, 0xfedcba98, 0x76543210),
              0xf002c39e, 0x18e992b1, 0x27fad345);
    DataRound(KEY, rk, 1, Block(0x89abcdef, 0xfedcba98, 0x76543210, 0x27fad345),
              0xee1470ac, 0xc62ad40d, 0xa18b4cb2);
    DataRound(KEY, rk, 2, Block(0xfedcba98, 0x76543210, 0x27fad345, 0xa18b4cb2),
              0xaa4f1c7d, 0x23a849c4, 0x11c1e22a);
    DataRound(KEY, rk, 3, Block(0x76543210, 0x27fad345, 0xa18b4cb2, 0x11c1e22a),
              0xec195daa, 0xc5445623, 0xcc13e2ee);
  }

  lemma Rounds4(rk: seq<word>)
    requires |rk| == 32 && Rounds(DataT, KEY, rk[..4]) == Block(0x27fad345, 0xa18b4cb2, 0x11c1e22a, 0xcc13e2ee)
    requires rk[4] == 0x367360f4 && rk[5] == 0x776a0c61 && rk[6] == 0xb6bb89b3 && rk[7] == 0x24763151
    ensures Rounds(DataT, KEY, rk[..8]) == Block(0xf87c5bd5, 0x33220757, 0x77f4c297, 0x7a96f2eb)
  {
    hide Rounds, DataT;
    DataRound(KEY, rk, 4, Block(0x27fad345, 0xa18b4cb2, 0x11c1e22a, 0xcc13e2ee),
              0x4a2a2c82, 0x3c0bed8a, 0xf87c5bd5);
    DataRound(KEY, rk, 5, Block(0xa18b4cb2, 0x11c1e22a, 0xcc13e2ee, 0xf87c5bd5),
              0x52c45770, 0x81bb8bd4, 0x33220757);
    DataRound(KEY, rk, 6, Block(0x11c1e22a, 0xcc13e2ee, 0xf87c5bd5, 0x33220757),
              0xb1f637df, 0xdb4d95b0, 0x77f4c297);
    DataRound(KEY, rk, 7, Block(0xcc13e2ee, 0xf87c5bd5, 0x33220757, 0x77f4c297),
              0x98dcaf44, 0xadb86ff3, 0x7a96f2eb);
  }

  lemma Rounds8(rk: seq<word>)
    requires |rk| == 32 && Rounds(DataT, KEY, rk[..8]) == Block(0xf87c5bd5, 0x33220757, 0x77f4c297, 0x7a96f2eb)
    requires rk[8] == 0xa520307c && rk[9] == 0xb7584dbd && rk[10] == 0xc30753ed && rk[11] == 0x7ee55b57
    ensures Rounds(DataT, KEY, rk[..12]) == Block(0x27dac07f, 0x42dd0f19, 0xb8a5da02, 0x907127fa)
  {
    hide Rounds, DataT;
    DataRound(KEY, rk, 8, Block(0xf87c5bd5, 0x33220757, 0x77f4c297, 0x7a96f2eb),
              0x9b600757, 0x301eb78b, 0x27dac07f);
    DataRound(KEY, rk, 9, Block(0x33220757, 0x77f4c297, 0x7a96f2eb, 0x27dac07f),
              0x9de0bdbe, 0x8c896c5b, 0x42dd0f19);
    DataRound(KEY, rk, 10, Block(0x77f4c297, 0x7a96f2eb, 0x27dac07f, 0x42dd0f19),
              0xdc966e60, 0xb81a781e, 0xb8a5da02);
    DataRound(KEY, rk, 11, Block(0x7a96f2eb, 0x27dac07f, 0x42dd0f19, 0xb8a5da02),
              0xa3474e33, 0x2eba4fa9, 0x907127fa);
  }

  lemma Rounds12(rk: seq<word>)
    requires |rk| == 32 && Rounds(DataT, KEY, rk[..12]) == Block(0x27dac07f, 0x42dd0f19, 0xb8a5da02, 0x907127fa)
    requires rk[12] == 0x6988608c && rk[13] == 0x30d895b7 && rk[14] == 0x44ba14af && rk[15] == 0x104495a1
    ensures Rounds(DataT, KEY, rk[..16]) == Block(0x8b952b83, 0xd42b7c59, 0x2ffc5831, 0xf69e6888)
  {
    hide Rounds, DataT;
    DataRound(KEY, rk, 12, Block(0x27dac07f, 0x42dd0f19, 0xb8a5da02, 0x907127fa),
              0x0381926d, 0xfebf5d21, 0x8b952b83);
    DataRound(KEY, rk, 13, Block(0x42dd0f19, 0xb8a5da02, 0x907127fa, 0x8b952b83),
              0x939943cc, 0xa493fc1f, 0xd42b7c59);
    DataRound(KEY, rk, 14, Block(0xb8a5da02, 0x907127fa, 0x8b952b83, 0xd42b7c59),
              0x8b75648f, 0xced363a1, 0x2ffc5831);
    DataRound(KEY, rk, 15, Block(0x907127fa, 0x8b952b83, 0xd42b7c59, 0x2ffc5831),
              0x60069a4a, 0x1e3d323c, 0xf69e6888);
  }

  lemma Rounds16(rk: seq<word>)
    requires |rk| == 32 && Rounds(DataT, KEY, rk[..16]) == Block(0x8b952b83, 0xd42b7c59, 0x2ffc5831, 0xf69e6888)
    requires rk[16] == 0xd120b428 && rk[17] == 0x73b55fa3 && rk[18] == 0xcc874966 && rk[19] == 0x92244439
    ensures Rounds(DataT, KEY, rk[..20]) == Block(0xaf2432c4, 0xed1ec85e, 0x55a3ba22, 0x124b18aa)
  {
    hide Rounds, DataT;
    DataRound(KEY, rk, 16, Block(0x8b952b83, 0xd42b7c59, 0x2ffc5831, 0xf69e6888),
              0xdc69f8c8, 0xb8227911, 0xaf2432c4);
    DataRound(KEY, rk, 17, Block(0xd42b7c59, 0x2ffc5831, 0xf69e6888, 0xaf2432c4),
              0x05f35dde, 0xe1ec56b4, 0xed1ec85e);
    DataRound(KEY, rk, 18, Block(0x2ffc5831, 0xf69e6888, 0xaf2432c4, 0xed1ec85e),
              0x7823db74, 0x4cf4129f, 0x55a3ba22);
    DataRound(KEY, rk, 19, Block(0xf69e6888, 0xaf2432c4, 0xed1ec85e, 0x55a3ba22),
              0x85bd0481, 0xc76cccbf, 0x124b18aa);
  }

  lemma Rounds20(rk: seq<word>)
    requires |rk| == 32 && Rounds(DataT, KEY, rk[..20]) == Block(0xaf2432c4, 0xed1ec85e, 0x55a3ba22, 0x124b18aa)
    requires rk[20] == 0xe89e641f && rk[21] == 0x98ca015a && rk[22] == 0xc7159060 && rk[23] == 0x99e1fd2e
    ensures Rounds(DataT, KEY, rk[..24]) == Block(0x6ae7725f, 0xf4cba1f9, 0x1dcdfa10, 0x2ff60603)
  {
    hide Rounds, DataT;
    DataRound(KEY, rk, 20, Block(0xaf2432c4, 0xed1ec85e, 0x55a3ba22, 0x124b18aa),
              0x42680ec9, 0xa7252cd9, 0x6ae7725f);
    DataRound(KEY, rk, 21, Block(0xed1ec85e, 0x55a3ba22, 0x124b18aa, 0x6ae7725f),
              0xb5c5d18d, 0xfdddc161, 0xf4cba1f9);
    DataRound(KEY, rk, 22, Block(0x55a3ba22, 0x124b18aa, 0x6ae7725f, 0xf4cba1f9),
              0x4b725b6c, 0x19464b01, 0x1dcdfa10);
    DataRound(KEY, rk, 23, Block(0x124b18aa, 0x6ae7725f, 0xf4cba1f9, 0x1dcdfa10),
              0x1a00d498, 0x13d6a5ad, 0x2ff60603);
  }

  lemma Rounds24(rk: seq<word>)
    requires |rk| == 32 && Rounds(DataT, KEY, rk[..24]) == Block(0x6ae7725f, 0xf4cba1f9, 0x1dcdfa10, 0x2ff60603)
    requires rk[24] == 0xb79bd80c && rk[25] == 0x1d2115b0 && rk[26] == 0x0e228aeb && rk[27] == 0xf1780c81
    ensures Rounds(DataT, KEY, rk[..28]) == Block(0xeff24fdc, 0x6fe46b75, 0x893450ad, 0x7b938f4c)
  {
    hide Rounds, DataT;
    DataRound(KEY, rk, 24, Block(0x6ae7725f, 0xf4cba1f9, 0x1dcdfa10, 0x2ff60603),
              0x716b85e6, 0x003bc777, 0xeff24fdc);
    DataRound(KEY, rk, 25, Block(0xf4cba1f9, 0x1dcdfa10, 0x2ff60603, 0xeff24fdc),
              0xc0e8a67f, 0x8d65ca9e, 0x6fe46b75);
    DataRound(KEY, rk, 26, Block(0x1dcdfa10, 0x2ff60603, 0xeff24fdc, 0x6fe46b75),
              0xa1c2a841, 0xf6afc007, 0x893450ad);
    DataRound(KEY, rk, 27, Block(0x2ff60603, 0xeff24fdc, 0x6fe46b75, 0x893450ad),
              0xf85a7885, 0x790f4cc7, 0x7b938f4c);
  }

  lemma Rounds28(rk: seq<word>)
    requires |rk| == 32 && Rounds(DataT, KEY, rk[..28]) == Block(0xeff24fdc, 0x6fe46b75, 0x893450ad, 0x7b938f4c)
    requires rk[28] == 0x428d3654 && rk[29] == 0x62293496 && rk[30] == 0x01cf72e5 && rk[31] == 0x9124a012
    ensures Rounds(DataT, KEY, rk[..32]) == Block(0x536e4246, 0x86b3e94f, 0xd206965e, 0x681edf34)
  {
    hide Rounds, DataT;
    DataRound(KEY, rk, 28, Block(0xeff24fdc, 0x6fe46b75, 0x893450ad, 0x7b938f4c),
              0xdfce82c0, 0xb05a8a8d, 0x536e4246);
    DataRound(KEY, rk, 29, Block(0x6fe46b75, 0x893450ad, 0x7b938f4c, 0x536e4246),
              0xc3e0a931, 0x928929b3, 0x86b3e94f);
    DataRound(KEY, rk, 30, Block(0x893450ad, 0x7b938f4c, 0x536e4246, 0x86b3e94f),
              0xaf8156a0, 0x6fbfda1d, 0xd206965e);
    DataRound(KEY, rk, 31, Block(0x7b938f4c, 0x536e4246, 0x86b3e94f, 0xd206965e),
              0x96ff9d45, 0x1a488c73, 0x681edf34);
  }

  // The ciphertext of the example.
  lemma StandardExample()
    ensures Encrypt(DataT, RoundKeys(KEY), KEY) == Block(0x681edf34, 0xd206965e, 0x86b3e94f, 0x536e4246)
  {
    hide RoundKey, Rounds, KeyT, DataT, Constants, Masked;
    Keys0();
    Keys2();
    Keys4();
    Keys6();
    Keys8();
    Keys10();
    Keys12();
    Keys14();
    Keys16();
    Keys18();
    Keys20();
    Keys22();
    Keys24();
    Keys26();
    Keys28();
    Keys30();
    var rk := RoundKeys(KEY);
    Rounds0(rk);
    Rounds4(rk);
    Rounds8(rk);
    Rounds12(rk);
    Rounds16(rk);
    Rounds20(rk);
    Rounds24(rk);
    Rounds28(rk);
    assert rk[..32] == rk;
  }
}
