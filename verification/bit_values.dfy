/// What words are as numbers: bit i of a word is its i-th binary digit.

module BitValues {
  import opened Arith
  import opened Words

  function Pow2(i: nat): (p: nat)
    ensures p > 0
  {
    if i == 0 then 1 else 2 * Pow2(i - 1)
  }

  // The digits from k on, and those below.
  function Above(v: nat, k: nat): nat
  {
    DivMod(v, Pow2(k));
    v / Pow2(k)
  }

  function Below(v: nat, k: nat): (r: nat)
    ensures r < Pow2(k)
  {
    DivMod(v, Pow2(k));
    v % Pow2(k)
  }

  predicate DigitOf(v: nat, i: nat) { v / Pow2(i) % 2 == 1 }

  function Value(w: word): nat { w as nat }

  predicate BitAt(w: word, i: nat) { DigitOf(Value(w), i) }

  lemma HalfBits(v: nat, i: nat)
    ensures DigitOf(v / 2, i) == DigitOf(v, i + 1)
  {
    var p := Pow2(i);
    var q := v / 2 / p;
    DivMod(v / 2, p);
    assert q * p <= v / 2 < (q + 1) * p by {
      OneMore(q, p);
    }
    assert q * (2 * p) == 2 * (q * p) && (q + 1) * (2 * p) == 2 * ((q + 1) * p);
    QuotientIs(v, q, 2 * p);
  }

  // A number is its digits.
  lemma {:induction false} SameBits(u: nat, v: nat, k: nat)
    requires u < Pow2(k) && v < Pow2(k) && forall i: nat :: i < k ==> DigitOf(u, i) == DigitOf(v, i)
    ensures u == v
  {
    if k > 0 {
      assert DigitOf(u, 0) == DigitOf(v, 0);
      forall i: nat | i < k - 1 ensures DigitOf(u / 2, i) == DigitOf(v / 2, i) {
        HalfBits(u, i);
        HalfBits(v, i);
      }
      SameBits(u / 2, v / 2, k - 1);
      assert Pow2(0) == 1;
    }
  }

  lemma BackToWord(w: word)
    ensures Value(w) < 0x1_0000_0000 && Value(w) as word == w
  {
  }

  // The shift and mask of Bit read the digit.
  lemma BitIs(w: word, i: nat)
    requires i < 32
    ensures BitAt(w, i) == Bit(w, i as bv5)
  {
    BackToWord(w);
    hide DigitOf, Bit, Value;
    Digit(Value(w), i);
  }

  lemma Powers()
    ensures Pow2(0) == 0x1 && Pow2(1) == 0x2 && Pow2(2) == 0x4 && Pow2(3) == 0x8
    ensures Pow2(4) == 0x10 && Pow2(5) == 0x20 && Pow2(6) == 0x40 && Pow2(7) == 0x80
    ensures Pow2(8) == 0x100 && Pow2(9) == 0x200 && Pow2(10) == 0x400 && Pow2(11) == 0x800
    ensures Pow2(12) == 0x1000 && Pow2(13) == 0x2000 && Pow2(14) == 0x4000 && Pow2(15) == 0x8000
    ensures Pow2(16) == 0x10000 && Pow2(17) == 0x20000 && Pow2(18) == 0x40000 && Pow2(19) == 0x80000
    ensures Pow2(20) == 0x100000 && Pow2(21) == 0x200000 && Pow2(22) == 0x400000 && Pow2(23) == 0x800000
    ensures Pow2(24) == 0x1000000 && Pow2(25) == 0x2000000 && Pow2(26) == 0x4000000 && Pow2(27) == 0x8000000
    ensures Pow2(28) == 0x10000000 && Pow2(29) == 0x20000000 && Pow2(30) == 0x40000000 && Pow2(31) == 0x80000000
  {
    assert Pow2(0) == 1;
    assert Pow2(0) == 0x1 && Pow2(1) == 0x2 && Pow2(2) == 0x4 && Pow2(3) == 0x8;
    assert Pow2(4) == 0x10 && Pow2(5) == 0x20 && Pow2(6) == 0x40 && Pow2(7) == 0x80;
    assert Pow2(8) == 0x100 && Pow2(9) == 0x200 && Pow2(10) == 0x400 && Pow2(11) == 0x800;
    assert Pow2(12) == 0x1000 && Pow2(13) == 0x2000 && Pow2(14) == 0x4000 && Pow2(15) == 0x8000;
    assert Pow2(16) == 0x10000 && Pow2(17) == 0x20000 && Pow2(18) == 0x40000 && Pow2(19) == 0x80000;
    assert Pow2(20) == 0x100000 && Pow2(21) == 0x200000 && Pow2(22) == 0x400000 && Pow2(23) == 0x800000;
    assert Pow2(24) == 0x1000000 && Pow2(25) == 0x2000000 && Pow2(26) == 0x4000000 && Pow2(27) == 0x8000000;
    assert Pow2(28) == 0x10000000 && Pow2(29) == 0x20000000 && Pow2(30) == 0x40000000 && Pow2(31) == 0x80000000;
  }

  lemma Digit(v: nat, i: nat)
    requires v < 0x1_0000_0000 && i < 32
    ensures DigitOf(v, i) == Bit(v as word, i as bv5)
  {
    hide Bit, DigitOf;
    if i < 4 {
      Digits0(v);
      assert i == 0 || i == 1 || i == 2 || i == 3;
    } else if i < 8 {
      Digits4(v);
      assert i == 4 || i == 5 || i == 6 || i == 7;
    } else if i < 12 {
      Digits8(v);
      assert i == 8 || i == 9 || i == 10 || i == 11;
    } else if i < 16 {
      Digits12(v);
      assert i == 12 || i == 13 || i == 14 || i == 15;
    } else if i < 20 {
      Digits16(v);
      assert i == 16 || i == 17 || i == 18 || i == 19;
    } else if i < 24 {
      Digits20(v);
      assert i == 20 || i == 21 || i == 22 || i == 23;
    } else if i < 28 {
      Digits24(v);
      assert i == 24 || i == 25 || i == 26 || i == 27;
    } else {
      Digits28(v);
      assert i == 28 || i == 29 || i == 30 || i == 31;
    }
  }

  lemma Digits0(v: nat)
    requires v < 0x1_0000_0000
    ensures Bit(v as word, 0) == DigitOf(v, 0) && Bit(v as word, 1) == DigitOf(v, 1)
    ensures Bit(v as word, 2) == DigitOf(v, 2) && Bit(v as word, 3) == DigitOf(v, 3)
  {
    hide Pow2;
    Powers();
  }

  lemma Digits4(v: nat)
    requires v < 0x1_0000_0000
    ensures Bit(v as word, 4) == DigitOf(v, 4) && Bit(v as word, 5) == DigitOf(v, 5)
    ensures Bit(v as word, 6) == DigitOf(v, 6) && Bit(v as word, 7) == DigitOf(v, 7)
  {
    hide Pow2;
    Powers();
  }

  lemma Digits8(v: nat)
    requires v < 0x1_0000_0000
    ensures Bit(v as word, 8) == DigitOf(v, 8) && Bit(v as word, 9) == DigitOf(v, 9)
    ensures Bit(v as word, 10) == DigitOf(v, 10) && Bit(v as word, 11) == DigitOf(v, 11)
  {
    hide Pow2;
    Powers();
  }

  lemma Digits12(v: nat)
    requires v < 0x1_0000_0000
    ensures Bit(v as word, 12) == DigitOf(v, 12) && Bit(v as word, 13) == DigitOf(v, 13)
    ensures Bit(v as word, 14) == DigitOf(v, 14) && Bit(v as word, 15) == DigitOf(v, 15)
  {
    hide Pow2;
    Powers();
  }

  lemma Digits16(v: nat)
    requires v < 0x1_0000_0000
    ensures Bit(v as word, 16) == DigitOf(v, 16) && Bit(v as word, 17) == DigitOf(v, 17)
    ensures Bit(v as word, 18) == DigitOf(v, 18) && Bit(v as word, 19) == DigitOf(v, 19)
  {
    hide Pow2;
    Powers();
  }

  lemma Digits20(v: nat)
    requires v < 0x1_0000_0000
    ensures Bit(v as word, 20) == DigitOf(v, 20) && Bit(v as word, 21) == DigitOf(v, 21)
    ensures Bit(v as word, 22) == DigitOf(v, 22) && Bit(v as word, 23) == DigitOf(v, 23)
  {
    hide Pow2;
    Powers();
  }

  lemma Digits24(v: nat)
    requires v < 0x1_0000_0000
    ensures Bit(v as word, 24) == DigitOf(v, 24) && Bit(v as word, 25) == DigitOf(v, 25)
    ensures Bit(v as word, 26) == DigitOf(v, 26) && Bit(v as word, 27) == DigitOf(v, 27)
  {
    hide Pow2;
    Powers();
  }

  lemma Digits28(v: nat)
    requires v < 0x1_0000_0000
    ensures Bit(v as word, 28) == DigitOf(v, 28) && Bit(v as word, 29) == DigitOf(v, 29)
    ensures Bit(v as word, 30) == DigitOf(v, 30) && Bit(v as word, 31) == DigitOf(v, 31)
  {
    hide Pow2;
    Powers();
  }

  lemma SameValue(x: word, y: word)
    ensures Value(x) == Value(y) <==> x == y
  {
    BackToWord(x);
    BackToWord(y);
  }

  lemma Bounded(w: word)
    ensures 0 <= Value(w) < 0x1_0000_0000 && Value(0) == 0
  {
  }

  // A word is worth the number with its digits.
  lemma ValueIs(w: word, v: nat)
    requires v < 0x1_0000_0000 && forall i: nat :: i < 32 ==> BitAt(w, i) == DigitOf(v, i)
    ensures Value(w) == v
  {
    Powers();
    assert Pow2(32) == 2 * Pow2(31);
    Bounded(w);
    hide Pow2, Value;
    SameBits(Value(w), v, 32);
  }

  /// Exclusive-or, digit by digit.

  lemma XorAt(a: word, b: word, i: nat)
    requires i < 32
    ensures BitAt(Xor(a, b), i) == (BitAt(a, i) != BitAt(b, i))
  {
    hide Xor, Bit, BitAt;
    BitIs(Xor(a, b), i);
    BitIs(a, i);
    BitIs(b, i);
    XorBit(a, b, i as bv5);
  }

  /// Division and remainder by a power of two move and cut digits.

  lemma {:induction false} DivBits(v: nat, k: nat, i: nat)
    ensures DigitOf(Above(v, k), i) == DigitOf(v, i + k)
  {
    if k == 0 {
      assert Pow2(0) == 1;
    } else {
      DivTwice(v, k);
      DivBits(v / 2, k - 1, i);
      HalfBits(v, i + k - 1);
    }
  }

  lemma DivTwice(v: nat, k: nat)
    requires k > 0
    ensures Above(v, k) == Above(v / 2, k - 1)
  {
    var p := Pow2(k - 1);
    var q := v / 2 / p;
    DivMod(v / 2, p);
    OneMore(q, p);
    assert q * (2 * p) == 2 * (q * p) && (q + 1) * (2 * p) == 2 * ((q + 1) * p);
    QuotientIs(v, q, 2 * p);
  }

  lemma {:induction false} ModBits(v: nat, k: nat, i: nat)
    ensures DigitOf(Below(v, k), i) == (i < k && DigitOf(v, i))
  {
    if k == 0 {
      assert Pow2(0) == 1;
      ZeroBits(i);
    } else {
      ModHalves(v, k);
      if i == 0 {
        assert Pow2(0) == 1;
      } else {
        ModBits(v / 2, k - 1, i - 1);
        HalfBits(Below(v, k), i - 1);
        HalfBits(v, i - 1);
      }
    }
  }

  lemma ZeroBits(i: nat)
    ensures !DigitOf(0, i)
  {
    QuotientIs(0, 0, Pow2(i));
  }

  lemma ModHalves(v: nat, k: nat)
    requires k > 0
    ensures Below(v, k) / 2 == Below(v / 2, k - 1) && Below(v, k) % 2 == v % 2
  {
    var p := Pow2(k - 1);
    var q, r := v / (2 * p), v % (2 * p);
    DivMod(v, 2 * p);
    assert v == 2 * (q * p) + r && q * (2 * p) == 2 * (q * p);
    assert v / 2 == q * p + r / 2;
    RemainderIs(v / 2, q, r / 2, p);
  }

  lemma RemainderIs(x: nat, q: nat, r: nat, d: nat)
    requires x == q * d + r && r < d
    ensures x % d == r
  {
    OneMore(q, d);
    QuotientIs(x, q, d);
    DivMod(x, d);
  }

  /// The bytes of a word, from its high end.

  predicate ByteBit(b: byte, n: bv5)
    requires n < 8
  {
    (b >> n) & 1 == 1
  }

  lemma ByteDigit(b: byte, i: nat)
    requires i < 8
    ensures (i as bv5) < 8 && DigitOf(b as nat, i) == ByteBit(b, i as bv5)
  {
    hide Pow2;
    Powers();
    var v := b as nat;
    assert v < 256 && v as byte == b;
    ByteDigits(v);
    hide ByteBit, DigitOf;
    if i < 4 {
      assert i == 0 || i == 1 || i == 2 || i == 3;
    } else {
      assert i == 4 || i == 5 || i == 6 || i == 7;
    }
  }

  lemma ByteDigits(v: nat)
    requires v < 256
    ensures DigitOf(v, 0) == ByteBit(v as byte, 0) && DigitOf(v, 1) == ByteBit(v as byte, 1)
    ensures DigitOf(v, 2) == ByteBit(v as byte, 2) && DigitOf(v, 3) == ByteBit(v as byte, 3)
    ensures DigitOf(v, 4) == ByteBit(v as byte, 4) && DigitOf(v, 5) == ByteBit(v as byte, 5)
    ensures DigitOf(v, 6) == ByteBit(v as byte, 6) && DigitOf(v, 7) == ByteBit(v as byte, 7)
  {
    hide Pow2;
    Powers();
  }

  lemma ByteOfWordBits(w: word, n: bv5)
    requires n < 8
    ensures ByteBit(BytesOf(w)[0], n) == Bit(w, n + 24) && ByteBit(BytesOf(w)[1], n) == Bit(w, n + 16)
    ensures ByteBit(BytesOf(w)[2], n) == Bit(w, n + 8) && ByteBit(BytesOf(w)[3], n) == Bit(w, n)
  {
  }

  lemma Shifted(i: nat, k: nat)
    requires i < 8 && k < 4
    ensures (i as bv5) < 8 && (i + 24 - 8 * k) as bv5 == (i as bv5) + [24, 16, 8, 0][k]
  {
    if k == 0 {
    } else if k == 1 {
    } else if k == 2 {
    } else {
    }
  }

  // Big-endian: byte k of a word has the eight digits from 24 - 8k on.
  lemma BytesAreDigits(w: word, k: nat)
    requires k < 4
    ensures BytesOf(w)[k] as nat == Above(Value(w), 24 - 8 * k) % 256
  {
    hide Bit, Pow2, DigitOf, Value, BytesOf, ByteBit;
    Powers();
    var b, v, m := BytesOf(w)[k] as nat, Value(w), 24 - 8 * k;
    assert Below(Above(v, m), 8) == Above(v, m) % 256;
    hide Above, Below;
    forall i: nat | i < 8 ensures DigitOf(b, i) == DigitOf(Below(Above(v, m), 8), i) {
      ByteDigit(BytesOf(w)[k], i);
      Shifted(i, k);
      ByteOfWordBits(w, i as bv5);
      BitIs(w, i + m);
      DivBits(v, m, i);
      ModBits(Above(v, m), 8, i);
    }
    assert b < 256;
    SameBits(b, Below(Above(v, m), 8), 8);
  }
}
