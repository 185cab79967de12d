/// Rotations of a word as repeated single rotations, what they do to its digits, and exclusive-ors of several of
/// them.

module Rotation {
  import opened BitValues
  import opened Words

  function Turn(x: word, n: nat): word
  {
    if n == 0 then x else Rotl(Turn(x, n - 1), 1)
  }

  /// Rotl by n is n single rotations.

  lemma OneMoreTurn(x: word, n: bv6)
    requires n < 32
    ensures Rotl(Rotl(x, n), 1) == Rotl(x, n + 1)
  {
  }

  lemma NoTurn(x: word)
    ensures Rotl(x, 0) == x
  {
  }

  lemma WholeTurn(x: word)
    ensures Rotl(x, 32) == x
  {
  }

  // Counting goes the same way in numbers and in six bits.
  lemma NextAmount(n: nat)
    requires n < 32
    ensures (n as bv6) < 32 && (n + 1) as bv6 == (n as bv6) + 1
  {
    if n < 8 {
    } else if n < 16 {
    } else if n < 24 {
    } else {
    }
  }

  lemma {:induction false} TurnIsRotl(x: word, n: nat)
    requires n <= 32
    ensures (n as bv6) <= 32 && Turn(x, n) == Rotl(x, n as bv6)
  {
    hide Rotl;
    if n == 0 {
      NoTurn(x);
    } else {
      TurnIsRotl(x, n - 1);
      NextAmount(n - 1);
      OneMoreTurn(x, (n - 1) as bv6);
    }
  }

  /// What it does to the digits.

  lemma OneTurnBit(x: word, i: bv5)
    ensures Bit(Rotl(x, 1), i + 1) == Bit(x, i)
  {
  }

  lemma NextIndex(i: nat)
    requires i < 32
    ensures ((i + 1) % 32) as bv5 == (i as bv5) + 1
  {
    if i < 8 {
    } else if i < 16 {
    } else if i < 24 {
    } else if i < 31 {
    } else {
    }
  }

  lemma OneTurnMoves(x: word, i: nat)
    requires i < 32
    ensures BitAt(Rotl(x, 1), (i + 1) % 32) == BitAt(x, i)
  {
    hide Rotl, Bit, BitAt;
    BitIs(Rotl(x, 1), (i + 1) % 32);
    BitIs(x, i);
    NextIndex(i);
    OneTurnBit(x, i as bv5);
  }

  lemma {:induction false} TurnMoves(x: word, n: nat, i: nat)
    requires i < 32
    ensures BitAt(Turn(x, n), (i + n) % 32) == BitAt(x, i)
  {
    hide Rotl, BitAt;
    if n > 0 {
      TurnMoves(x, n - 1, i);
      OneTurnMoves(Turn(x, n - 1), (i + n - 1) % 32);
      assert ((i + n - 1) % 32 + 1) % 32 == (i + n) % 32;
    }
  }

  // Rotation to the left: binary digit i becomes digit i + n modulo 32.
  lemma RotlMoves(x: word, n: nat, i: nat)
    requires n <= 32 && i < 32
    ensures (n as bv6) <= 32 && BitAt(Rotl(x, n as bv6), (i + n) % 32) == BitAt(x, i)
  {
    hide Rotl, BitAt, Turn;
    TurnIsRotl(x, n);
    TurnMoves(x, n, i);
  }

  // The other way round: digit i comes from digit i - n modulo 32.
  lemma RotlComesFrom(x: word, n: nat, i: nat)
    requires n <= 32 && i < 32
    ensures (n as bv6) <= 32 && BitAt(Rotl(x, n as bv6), i) == BitAt(x, (i + 32 - n) % 32)
  {
    hide Rotl, BitAt;
    RotlMoves(x, n, (i + 32 - n) % 32);
    assert ((i + 32 - n) % 32 + n) % 32 == i;
  }

  lemma FullTurn(x: word)
    ensures Turn(x, 32) == x
  {
    hide Turn, Rotl;
    TurnIsRotl(x, 32);
    WholeTurn(x);
  }

  lemma TurnModulo(x: word, n: nat)
    requires n >= 32
    ensures Turn(x, n) == Turn(x, n - 32)
  {
    hide Rotl;
    FullTurn(x);
    TurnAdd(x, 32, n - 32);
  }

  lemma {:induction false} TurnAdd(x: word, n: nat, m: nat)
    ensures Turn(Turn(x, n), m) == Turn(x, n + m)
  {
    hide Rotl;
    if m > 0 {
      TurnAdd(x, n, m - 1);
    }
  }

  lemma RotlXor(x: word, y: word)
    ensures Rotl(Xor(x, y), 1) == Xor(Rotl(x, 1), Rotl(y, 1))
  {
  }

  lemma {:induction false} TurnXor(x: word, y: word, n: nat)
    ensures Turn(Xor(x, y), n) == Xor(Turn(x, n), Turn(y, n))
  {
    hide Rotl, Xor;
    if n > 0 {
      TurnXor(x, y, n - 1);
      RotlXor(Turn(x, n - 1), Turn(y, n - 1));
    }
  }

  lemma {:induction false} TurnZero(n: nat)
    ensures Turn(0, n) == 0
  {
    if n > 0 {
      TurnZero(n - 1);
    }
  }

  lemma XorZero(x: word)
    ensures Xor(x, 0) == x && Xor(0, x) == x && Xor(x, x) == 0
  {
  }

  lemma XorAssoc(a: word, b: word, c: word)
    ensures Xor(Xor(a, b), c) == Xor(a, Xor(b, c))
  {
  }

  lemma XorSwap(a: word, b: word, c: word, d: word)
    ensures Xor(Xor(a, b), Xor(c, d)) == Xor(Xor(a, c), Xor(b, d))
  {
    hide Xor;
    XorAssoc(a, b, Xor(c, d));
    XorAssoc(b, c, d);
    XorComm(b, c);
    XorAssoc(c, b, d);
    XorAssoc(a, c, Xor(b, d));
  }

  lemma XorMiddle(a: word, b: word, c: word)
    ensures Xor(Xor(a, b), Xor(b, c)) == Xor(a, c)
  {
  }

  /// The exclusive-or of the rotations by es.

  function Mix(es: seq<nat>, x: word): word
  {
    if es == [] then 0 else Xor(Turn(x, es[0]), Mix(es[1..], x))
  }

  function Double(es: seq<nat>): seq<nat>
  {
    if es == [] then [] else [2 * es[0]] + Double(es[1..])
  }

  lemma {:induction false} MixXor(es: seq<nat>, x: word, y: word)
    ensures Mix(es, Xor(x, y)) == Xor(Mix(es, x), Mix(es, y))
  {
    hide Rotl, Xor, Turn;
    if es == [] {
      XorZero(0);
    } else {
      MixXor(es[1..], x, y);
      TurnXor(x, y, es[0]);
      XorSwap(Turn(x, es[0]), Turn(y, es[0]), Mix(es[1..], x), Mix(es[1..], y));
    }
  }

  lemma {:induction false} MixTurn(es: seq<nat>, x: word, n: nat)
    ensures Mix(es, Turn(x, n)) == Turn(Mix(es, x), n)
  {
    hide Rotl, Xor, Turn;
    if es == [] {
      TurnZero(n);
    } else {
      MixTurn(es[1..], x, n);
      TurnAdd(x, n, es[0]);
      TurnAdd(x, es[0], n);
      TurnXor(Turn(x, es[0]), Mix(es[1..], x), n);
    }
  }

  // Squaring a mix doubles its amounts: the cross terms cancel.
  lemma {:induction false} MixSquare(es: seq<nat>, x: word)
    ensures Mix(es, Mix(es, x)) == Mix(Double(es), x)
  {
    hide Rotl, Xor, Turn;
    if es != [] {
      var e, t := es[0], es[1..];
      var a, b := Turn(x, e), Mix(t, x);
      assert Mix(es, x) == Xor(a, b);
      TurnXor(a, b, e);
      MixXor(t, a, b);
      MixTurn(t, x, e);
      TurnAdd(x, e, e);
      MixSquare(t, x);
      XorMiddle(Turn(a, e), Turn(b, e), Mix(t, b));
      assert Double(es)[1..] == Double(t);
    }
  }

  function MixTimes(es: seq<nat>, n: nat, x: word): word
  {
    if n == 0 then x else Mix(es, MixTimes(es, n - 1, x))
  }

  // A mix applied 2n times is the doubled mix applied n times.
  lemma {:induction false} MixTimesEven(es: seq<nat>, n: nat, x: word)
    ensures MixTimes(es, 2 * n, x) == MixTimes(Double(es), n, x)
  {
    hide Mix, Rotl, Xor, Turn;
    if n > 0 {
      MixTimesEven(es, n - 1, x);
      MixSquare(es, MixTimes(es, 2 * n - 2, x));
    }
  }
}
