/// The diffusion maps of nice.h are permutations of the 32-bit words.

module Mixing {
  import opened BitValues
  import opened Words
  import opened NiceReference
  import opened Rotation
  import SboxRom

  const P0_TURNS: seq<nat> := [0, 9, 17]
  const P1_TURNS: seq<nat> := [0, 15, 23]
  const KEY_TURNS: seq<nat> := [0, 13, 23]
  const DATA_TURNS: seq<nat> := [0, 2, 10, 18, 24]

  lemma XorThree(a: word, b: word, c: word)
    ensures Xor3(a, b, c) == Xor(a, Xor(b, Xor(c, 0)))
  {
    hide Xor;
    XorZero(c);
    XorAssoc(a, b, c);
  }

  lemma XorFive(a: word, b: word, c: word, d: word, e: word)
    ensures Xor5(a, b, c, d, e) == Xor(a, Xor(b, Xor(c, Xor(d, Xor(e, 0)))))
  {
    hide Xor3, Xor;
    XorThree(a, b, c);
    XorZero(c);
    XorZero(e);
    XorAssoc(Xor3(a, b, c), d, e);
    XorAssoc(a, Xor(b, c), Xor(d, e));
    XorAssoc(b, c, Xor(d, e));
  }

  lemma XorPairs(a: word, b: word)
    ensures Xor3(a, b, b) == a && Xor5(a, b, b, b, a) == b
  {
  }

  lemma MixCons(e: nat, es: seq<nat>, x: word)
    ensures Mix([e] + es, x) == Xor(Turn(x, e), Mix(es, x))
  {
    hide Xor, Turn;
    assert ([e] + es)[1..] == es;
  }

  lemma MixOfThree(a: nat, b: nat, c: nat, x: word)
    ensures Mix([a, b, c], x) == Xor3(Turn(x, a), Turn(x, b), Turn(x, c))
  {
    hide Xor, Xor3, Turn;
    assert [a, b, c] == [a] + ([b] + ([c] + [])) && Mix([], x) == 0;
    hide Mix;
    MixCons(a, [b] + ([c] + []), x);
    MixCons(b, [c] + [], x);
    MixCons(c, [], x);
    XorThree(Turn(x, a), Turn(x, b), Turn(x, c));
  }

  lemma MixOfFive(a: nat, b: nat, c: nat, d: nat, e: nat, x: word)
    ensures Mix([a, b, c, d, e], x) == Xor5(Turn(x, a), Turn(x, b), Turn(x, c), Turn(x, d), Turn(x, e))
  {
    hide Xor, Xor3, Xor5, Turn, Mix;
    assert [a, b, c, d, e] == [a] + ([b] + [c, d, e]);
    MixCons(a, [b] + [c, d, e], x);
    MixCons(b, [c, d, e], x);
    MixOfThree(c, d, e, x);
    XorThree(Turn(x, c), Turn(x, d), Turn(x, e));
    XorFive(Turn(x, a), Turn(x, b), Turn(x, c), Turn(x, d), Turn(x, e));
  }

  lemma NoTurns(x: word)
    ensures Turn(x, 0) == x
  {
  }

  lemma P0IsMix(x: word)
    ensures SM3P0(x) == Mix(P0_TURNS, x)
  {
    hide Xor3, Turn, Rotl, Mix;
    MixOfThree(0, 9, 17, x);
    NoTurns(x);
    TurnIsRotl(x, 9);
    TurnIsRotl(x, 17);
  }

  lemma P1IsMix(x: word)
    ensures SM3P1(x) == Mix(P1_TURNS, x)
  {
    hide Xor3, Turn, Rotl, Mix;
    MixOfThree(0, 15, 23, x);
    NoTurns(x);
    TurnIsRotl(x, 15);
    TurnIsRotl(x, 23);
  }

  lemma KeyMapIsMix(x: word)
    ensures SM4Linear(x, 0) == Mix(KEY_TURNS, x)
  {
    hide Xor3, Turn, Rotl, Mix;
    MixOfThree(0, 13, 23, x);
    NoTurns(x);
    TurnIsRotl(x, 13);
    TurnIsRotl(x, 23);
  }

  lemma DataMapIsMix(x: word)
    ensures SM4Linear(x, 1) == Mix(DATA_TURNS, x)
  {
    hide Xor5, Turn, Rotl, Mix;
    MixOfFive(0, 2, 10, 18, 24, x);
    NoTurns(x);
    TurnIsRotl(x, 2);
    TurnIsRotl(x, 10);
    TurnIsRotl(x, 18);
    TurnIsRotl(x, 24);
  }

  /// Each map digit by digit: which digits of the argument have to be odd in number.

  predicate Odd3(a: bool, b: bool, c: bool) { a != (b != c) }

  predicate Odd5(a: bool, b: bool, c: bool, d: bool, e: bool) { a != (b != (c != (d != e))) }

  lemma Xor3At(a: word, b: word, c: word, i: nat)
    requires i < 32
    ensures BitAt(Xor3(a, b, c), i) == Odd3(BitAt(a, i), BitAt(b, i), BitAt(c, i))
  {
    hide Xor, BitAt;
    XorAt(a, b, i);
    XorAt(Xor(a, b), c, i);
  }

  lemma Xor5At(a: word, b: word, c: word, d: word, e: word, i: nat)
    requires i < 32
    ensures BitAt(Xor5(a, b, c, d, e), i) == Odd5(BitAt(a, i), BitAt(b, i), BitAt(c, i), BitAt(d, i), BitAt(e, i))
  {
    hide Xor, Xor3, BitAt;
    Xor3At(a, b, c, i);
    XorAt(Xor3(a, b, c), d, i);
    XorAt(Xor(Xor3(a, b, c), d), e, i);
  }

  lemma P0Digits(x: word, i: nat)
    requires i < 32
    ensures BitAt(SM3P0(x), i) == Odd3(BitAt(x, i), BitAt(x, (i + 32 - 9) % 32), BitAt(x, (i + 32 - 17) % 32))
  {
    hide Xor3, Rotl, BitAt, Odd3;
    RotlComesFrom(x, 9, i);
    RotlComesFrom(x, 17, i);
    Xor3At(x, Rotl(x, 9), Rotl(x, 17), i);
  }

  lemma P1Digits(x: word, i: nat)
    requires i < 32
    ensures BitAt(SM3P1(x), i) == Odd3(BitAt(x, i), BitAt(x, (i + 32 - 15) % 32), BitAt(x, (i + 32 - 23) % 32))
  {
    hide Xor3, Rotl, BitAt, Odd3;
    RotlComesFrom(x, 15, i);
    RotlComesFrom(x, 23, i);
    Xor3At(x, Rotl(x, 15), Rotl(x, 23), i);
  }

  lemma KeyMapDigits(x: word, i: nat)
    requires i < 32
    ensures BitAt(SM4Linear(x, 0), i)
         == Odd3(BitAt(x, i), BitAt(x, (i + 32 - 13) % 32), BitAt(x, (i + 32 - 23) % 32))
  {
    hide Xor3, Rotl, BitAt, Odd3;
    RotlComesFrom(x, 13, i);
    RotlComesFrom(x, 23, i);
    Xor3At(x, Rotl(x, 13), Rotl(x, 23), i);
  }

  lemma DataMapDigits(x: word, i: nat)
    requires i < 32
    ensures BitAt(SM4Linear(x, 1), i)
         == Odd5(BitAt(x, i), BitAt(x, (i + 32 - 2) % 32), BitAt(x, (i + 32 - 10) % 32),
                 BitAt(x, (i + 32 - 18) % 32), BitAt(x, (i + 32 - 24) % 32))
  {
    hide Xor5, Rotl, BitAt, Odd5;
    RotlComesFrom(x, 2, i);
    RotlComesFrom(x, 10, i);
    RotlComesFrom(x, 18, i);
    RotlComesFrom(x, 24, i);
    Xor5At(x, Rotl(x, 2), Rotl(x, 10), Rotl(x, 18), Rotl(x, 24), i);
  }

  /// Powers.

  lemma DoubleCons(e: nat, es: seq<nat>)
    ensures Double([e] + es) == [2 * e] + Double(es)
  {
    assert ([e] + es)[1..] == es;
  }

  lemma DoubleOfThree(a: nat, b: nat, c: nat)
    ensures Double([a, b, c]) == [2 * a, 2 * b, 2 * c]
  {
    assert [a, b, c] == [a] + ([b] + ([c] + [])) && Double([]) == [];
    hide Double;
    DoubleCons(a, [b] + ([c] + []));
    DoubleCons(b, [c] + []);
    DoubleCons(c, []);
  }

  lemma DoubleOfFive(a: nat, b: nat, c: nat, d: nat, e: nat)
    ensures Double([a, b, c, d, e]) == [2 * a, 2 * b, 2 * c, 2 * d, 2 * e]
  {
    hide Double;
    assert [a, b, c, d, e] == [a] + ([b] + [c, d, e]);
    DoubleCons(a, [b] + [c, d, e]);
    DoubleCons(b, [c, d, e]);
    DoubleOfThree(c, d, e);
  }

  lemma FourthPower(es: seq<nat>, x: word)
    ensures MixTimes(es, 4, x) == Mix(Double(Double(es)), x)
  {
    hide Mix, Double;
    MixTimesEven(es, 2, x);
    MixTimesEven(Double(es), 1, x);
    assert MixTimes(Double(Double(es)), 0, x) == x;
  }

  lemma P0FourTimes(x: word)
    ensures SM3P0(SM3P0(SM3P0(SM3P0(x)))) == x
  {
    hide Mix, Turn, Xor3, Double, SM3P0;
    P0IsMix(x);
    P0IsMix(SM3P0(x));
    P0IsMix(SM3P0(SM3P0(x)));
    P0IsMix(SM3P0(SM3P0(SM3P0(x))));
    ThreeTimes(P0_TURNS, x);
    FourthPower(P0_TURNS, x);
    DoubleOfThree(0, 9, 17);
    DoubleOfThree(0, 18, 34);
    MixOfThree(0, 36, 68, x);
    NoTurns(x);
    TurnModulo(x, 68);
    TurnModulo(x, 36);
    XorPairs(x, Turn(x, 4));
  }

  lemma ThreeTimes(es: seq<nat>, x: word)
    ensures MixTimes(es, 4, x) == Mix(es, Mix(es, Mix(es, Mix(es, x))))
  {
    hide Mix;
    assert MixTimes(es, 1, x) == Mix(es, MixTimes(es, 0, x));
    assert MixTimes(es, 3, x) == Mix(es, MixTimes(es, 2, x));
  }

  lemma P1FourTimes(x: word)
    ensures SM3P1(SM3P1(SM3P1(SM3P1(x)))) == x
  {
    hide Mix, Turn, Xor3, Double, SM3P1;
    P1IsMix(x);
    P1IsMix(SM3P1(x));
    P1IsMix(SM3P1(SM3P1(x)));
    P1IsMix(SM3P1(SM3P1(SM3P1(x))));
    ThreeTimes(P1_TURNS, x);
    FourthPower(P1_TURNS, x);
    DoubleOfThree(0, 15, 23);
    DoubleOfThree(0, 30, 46);
    MixOfThree(0, 60, 92, x);
    NoTurns(x);
    TurnModulo(x, 92);
    TurnModulo(x, 60);
    XorPairs(x, Turn(x, 28));
  }

  // The encryption map L: four times is a rotation by eight.
  lemma DataMapFourTimes(x: word)
    ensures SM4Linear(SM4Linear(SM4Linear(SM4Linear(x, 1), 1), 1), 1) == Rotl(x, 8)
  {
    hide Mix, Turn, Xor5, Double, Rotl, SM4Linear;
    DataMapIsMix(x);
    DataMapIsMix(SM4Linear(x, 1));
    DataMapIsMix(SM4Linear(SM4Linear(x, 1), 1));
    DataMapIsMix(SM4Linear(SM4Linear(SM4Linear(x, 1), 1), 1));
    ThreeTimes(DATA_TURNS, x);
    FourthPower(DATA_TURNS, x);
    DoubleOfFive(0, 2, 10, 18, 24);
    DoubleOfFive(0, 4, 20, 36, 48);
    MixOfFive(0, 8, 40, 72, 96, x);
    NoTurns(x);
    TurnIsRotl(x, 8);
    TurnModulo(x, 40);
    TurnModulo(x, 72);
    TurnModulo(x, 96);
    TurnModulo(x, 64);
    TurnModulo(x, 32);
    XorPairs(x, Turn(x, 8));
  }

  function LinearTimes(mode: word, n: nat, x: word): word
  {
    if n == 0 then x else SM4Linear(LinearTimes(mode, n - 1, x), mode)
  }

  lemma {:induction false} KeyMapTimes(n: nat, x: word)
    ensures LinearTimes(0, n, x) == MixTimes(KEY_TURNS, n, x)
  {
    hide SM4Linear, Mix;
    if n > 0 {
      KeyMapTimes(n - 1, x);
      KeyMapIsMix(LinearTimes(0, n - 1, x));
    }
  }

  // The key-schedule map L': sixteen times is the identity.
  lemma KeyMapSixteenTimes(x: word)
    ensures LinearTimes(0, 16, x) == x
  {
    hide Mix, Turn, Xor3, Double, LinearTimes, MixTimes;
    KeyMapTimes(16, x);
    MixTimesEven(KEY_TURNS, 8, x);
    MixTimesEven(Double(KEY_TURNS), 4, x);
    FourthPower(Double(Double(KEY_TURNS)), x);
    DoubleOfThree(0, 13, 23);
    DoubleOfThree(0, 26, 46);
    DoubleOfThree(0, 52, 92);
    DoubleOfThree(0, 104, 184);
    MixOfThree(0, 208, 368, x);
    NoTurns(x);
    TurnDown(x, 208);
    TurnDown(x, 368);
    XorPairs(x, Turn(x, 16));
  }

  lemma {:induction false} TurnDown(x: word, n: nat)
    ensures Turn(x, n) == Turn(x, n % 32)
  {
    hide Turn;
    if n >= 32 {
      TurnModulo(x, n);
      TurnDown(x, n - 32);
    }
  }

  /// Inverses of the linear maps.

  function P0Inverse(y: word): word { SM3P0(SM3P0(SM3P0(y))) }

  function P1Inverse(y: word): word { SM3P1(SM3P1(SM3P1(y))) }

  function DataMapInverse(y: word): word { Rotl(SM4Linear(SM4Linear(SM4Linear(y, 1), 1), 1), 24) }

  function KeyMapInverse(y: word): word { LinearTimes(0, 15, y) }

  lemma P0Permutes(x: word)
    ensures P0Inverse(SM3P0(x)) == x && SM3P0(P0Inverse(x)) == x
  {
    hide SM3P0;
    P0FourTimes(x);
  }

  lemma P1Permutes(x: word)
    ensures P1Inverse(SM3P1(x)) == x && SM3P1(P1Inverse(x)) == x
  {
    hide SM3P1;
    P1FourTimes(x);
  }

  lemma RotlBack(x: word)
    ensures Rotl(Rotl(x, 8), 24) == x
  {
  }

  lemma DataMapTurns(x: word)
    ensures SM4Linear(Rotl(x, 24), 1) == Rotl(SM4Linear(x, 1), 24)
  {
    hide Mix, Turn, Rotl, SM4Linear;
    DataMapIsMix(x);
    DataMapIsMix(Rotl(x, 24));
    TurnIsRotl(x, 24);
    TurnIsRotl(Mix(DATA_TURNS, x), 24);
    MixTurn(DATA_TURNS, x, 24);
  }

  lemma DataMapPermutes(x: word)
    ensures DataMapInverse(SM4Linear(x, 1)) == x && SM4Linear(DataMapInverse(x), 1) == x
  {
    hide SM4Linear, Rotl;
    DataMapFourTimes(x);
    RotlBack(x);
    DataMapTurns(SM4Linear(SM4Linear(SM4Linear(x, 1), 1), 1));
  }

  lemma {:induction false} LinearTimesShift(n: nat, x: word)
    ensures LinearTimes(0, n, SM4Linear(x, 0)) == SM4Linear(LinearTimes(0, n, x), 0)
  {
    hide SM4Linear;
    if n > 0 {
      LinearTimesShift(n - 1, x);
    }
  }

  lemma KeyMapPermutes(x: word)
    ensures KeyMapInverse(SM4Linear(x, 0)) == x && SM4Linear(KeyMapInverse(x), 0) == x
  {
    hide SM4Linear;
    LinearTimesShift(15, x);
    KeyMapSixteenTimes(x);
  }

  /// The T maps: substitution, then a linear map.

  function UnSubstitute(a: word): word
  {
    var b := BytesOf(a);
    WordOf([SboxRom.Inverse(b[0]), SboxRom.Inverse(b[1]), SboxRom.Inverse(b[2]), SboxRom.Inverse(b[3])])
  }

  lemma SboxUndone(x: byte)
    ensures SboxRom.Inverse(Sbox(x)) == x && Sbox(SboxRom.Inverse(x)) == x
  {
    hide Sbox, SboxRom.DataOut, SboxRom.Inverse;
    SboxRom.SameTable(x);
    SboxRom.InverseOfDataOut(x);
    SboxRom.SameTable(SboxRom.Inverse(x));
    SboxRom.DataOutOfInverse(x);
  }

  lemma SubstitutionPermutes(a: word)
    ensures UnSubstitute(SM4Nonlinear(a)) == a && SM4Nonlinear(UnSubstitute(a)) == a
  {
    hide Sbox, SboxRom.Inverse, BytesOf, WordOf;
    var b := BytesOf(a);
    SboxUndone(b[0]);
    SboxUndone(b[1]);
    SboxUndone(b[2]);
    SboxUndone(b[3]);
    BytesOfWord([Sbox(b[0]), Sbox(b[1]), Sbox(b[2]), Sbox(b[3])]);
    BytesOfWord([SboxRom.Inverse(b[0]), SboxRom.Inverse(b[1]), SboxRom.Inverse(b[2]), SboxRom.Inverse(b[3])]);
    WordOfBytes(a);
    assert b == [b[0], b[1], b[2], b[3]];
  }

  function DataT(a: word): word { SM4Linear(SM4Nonlinear(a), 1) }

  function KeyT(a: word): word { SM4Linear(SM4Nonlinear(a), 0) }

  function DataTInverse(a: word): word { UnSubstitute(DataMapInverse(a)) }

  function KeyTInverse(a: word): word { UnSubstitute(KeyMapInverse(a)) }

  lemma DataTPermutes(a: word)
    ensures DataTInverse(DataT(a)) == a && DataT(DataTInverse(a)) == a
  {
    hide SM4Linear, SM4Nonlinear, UnSubstitute, DataMapInverse;
    SubstitutionPermutes(a);
    SubstitutionPermutes(DataMapInverse(a));
    DataMapPermutes(SM4Nonlinear(a));
    DataMapPermutes(a);
  }

  lemma KeyTPermutes(a: word)
    ensures KeyTInverse(KeyT(a)) == a && KeyT(KeyTInverse(a)) == a
  {
    hide SM4Linear, SM4Nonlinear, UnSubstitute, KeyMapInverse;
    SubstitutionPermutes(a);
    SubstitutionPermutes(KeyMapInverse(a));
    KeyMapPermutes(SM4Nonlinear(a));
    KeyMapPermutes(a);
  }
}
