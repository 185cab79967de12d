/// What the S-box table is: inversion in a field of 256 elements between two affine maps.

module SboxField {
  import opened Words
  import opened NiceReference
  import SboxRom

  /// The polynomials over the two-element field modulo x^8 + x^7 + x^6 + x^5 + x^4 + x^2 + 1.

  function Plus(a: byte, b: byte): byte { a ^ b }

  function Double(a: byte): byte { (a << 1) ^ (if a & 0x80 != 0 then 0xf5 else 0) }

  function Part(a: byte, b: byte, n: bv4): byte
    requires n < 8
  {
    if (b >> n) & 1 == 1 then a else 0
  }

  function Times(a: byte, b: byte): byte
  {
    var a1 := Double(a);
    var a2 := Double(a1);
    var a3 := Double(a2);
    var a4 := Double(a3);
    var a5 := Double(a4);
    var a6 := Double(a5);
    var a7 := Double(a6);
    Plus(Plus(Plus(Part(a, b, 0), Part(a1, b, 1)), Plus(Part(a2, b, 2), Part(a3, b, 3))),
         Plus(Plus(Part(a4, b, 4), Part(a5, b, 5)), Plus(Part(a6, b, 6), Part(a7, b, 7))))
  }

  lemma NoZeroDivisors0(a: byte, b: byte)
    requires Times(a, b) == 0 && a < 0x20
    ensures a == 0 || b == 0
  {
  }

  lemma NoZeroDivisors1(a: byte, b: byte)
    requires Times(a, b) == 0 && 0x20 <= a < 0x40
    ensures a == 0 || b == 0
  {
  }

  lemma NoZeroDivisors2(a: byte, b: byte)
    requires Times(a, b) == 0 && 0x40 <= a < 0x60
    ensures a == 0 || b == 0
  {
  }

  lemma NoZeroDivisors3(a: byte, b: byte)
    requires Times(a, b) == 0 && 0x60 <= a < 0x80
    ensures a == 0 || b == 0
  {
  }

  lemma NoZeroDivisors4(a: byte, b: byte)
    requires Times(a, b) == 0 && 0x80 <= a < 0xa0
    ensures a == 0 || b == 0
  {
  }

  lemma NoZeroDivisors5(a: byte, b: byte)
    requires Times(a, b) == 0 && 0xa0 <= a < 0xc0
    ensures a == 0 || b == 0
  {
  }

  lemma NoZeroDivisors6(a: byte, b: byte)
    requires Times(a, b) == 0 && 0xc0 <= a < 0xe0
    ensures a == 0 || b == 0
  {
  }

  lemma NoZeroDivisors7(a: byte, b: byte)
    requires Times(a, b) == 0 && 0xe0 <= a
    ensures a == 0 || b == 0
  {
  }

  lemma NoZeroDivisors(a: byte, b: byte)
    requires Times(a, b) == 0
    ensures a == 0 || b == 0
  {
    hide Times;
    if a < 0x20 {
      NoZeroDivisors0(a, b);
    } else if a < 0x40 {
      NoZeroDivisors1(a, b);
    } else if a < 0x60 {
      NoZeroDivisors2(a, b);
    } else if a < 0x80 {
      NoZeroDivisors3(a, b);
    } else if a < 0xa0 {
      NoZeroDivisors4(a, b);
    } else if a < 0xc0 {
      NoZeroDivisors5(a, b);
    } else if a < 0xe0 {
      NoZeroDivisors6(a, b);
    } else {
      NoZeroDivisors7(a, b);
    }
  }

  lemma PlusAssoc(a: byte, b: byte, c: byte)
    ensures Plus(Plus(a, b), c) == Plus(a, Plus(b, c)) && Plus(a, b) == Plus(b, a)
  {
  }

  lemma PlusSwaps(a: byte, b: byte, c: byte, d: byte)
    ensures Plus(Plus(a, b), Plus(c, d)) == Plus(Plus(a, c), Plus(b, d))
  {
    hide Plus;
    PlusAssoc(a, b, Plus(c, d));
    PlusAssoc(b, c, d);
    PlusAssoc(c, b, d);
    PlusAssoc(a, c, Plus(b, d));
  }

  lemma PartPlus(a: byte, b: byte, c: byte, n: bv4)
    requires n < 8
    ensures Part(a, Plus(b, c), n) == Plus(Part(a, b, n), Part(a, c, n))
  {
  }

  lemma Distributes(a: byte, b: byte, c: byte)
    ensures Times(a, Plus(b, c)) == Plus(Times(a, b), Times(a, c))
  {
    hide Plus, Part, Double;
    var a1 := Double(a);
    var a2 := Double(a1);
    var a3 := Double(a2);
    var a4 := Double(a3);
    var a5 := Double(a4);
    var a6 := Double(a5);
    var a7 := Double(a6);
    PairPlus(a, a1, b, c, 0, 1);
    PairPlus(a2, a3, b, c, 2, 3);
    PairPlus(a4, a5, b, c, 4, 5);
    PairPlus(a6, a7, b, c, 6, 7);
    PlusSwaps(Pair(a, a1, b, 0, 1), Pair(a, a1, c, 0, 1), Pair(a2, a3, b, 2, 3), Pair(a2, a3, c, 2, 3));
    PlusSwaps(Pair(a4, a5, b, 4, 5), Pair(a4, a5, c, 4, 5), Pair(a6, a7, b, 6, 7), Pair(a6, a7, c, 6, 7));
    PlusSwaps(Plus(Pair(a, a1, b, 0, 1), Pair(a2, a3, b, 2, 3)), Plus(Pair(a, a1, c, 0, 1), Pair(a2, a3, c, 2, 3)),
              Plus(Pair(a4, a5, b, 4, 5), Pair(a6, a7, b, 6, 7)), Plus(Pair(a4, a5, c, 4, 5), Pair(a6, a7, c, 6, 7)));
  }

  function Pair(a: byte, d: byte, b: byte, n: bv4, m: bv4): byte
    requires n < 8 && m < 8
  {
    Plus(Part(a, b, n), Part(d, b, m))
  }

  lemma PairPlus(a: byte, d: byte, b: byte, c: byte, n: bv4, m: bv4)
    requires n < 8 && m < 8
    ensures Pair(a, d, Plus(b, c), n, m) == Plus(Pair(a, d, b, n, m), Pair(a, d, c, n, m))
  {
    hide Plus, Part;
    PartPlus(a, b, c, n);
    PartPlus(d, b, c, m);
    PlusSwaps(Part(a, b, n), Part(a, c, n), Part(d, b, m), Part(d, c, m));
  }

  predicate Inverts(y: byte, z: byte) { if y == 0 then z == 0 else Times(y, z) == 1 }

  lemma PlusSame(a: byte, b: byte)
    ensures Plus(a, b) == 0 <==> a == b
  {
  }

  // So an element has one inverse.
  lemma OneInverse(y: byte, z: byte, w: byte)
    requires Inverts(y, z) && Inverts(y, w)
    ensures z == w
  {
    hide Times, Plus;
    if y != 0 {
      Distributes(y, z, w);
      PlusSame(Times(y, z), Times(y, w));
      NoZeroDivisors(y, Plus(z, w));
      PlusSame(z, w);
    }
  }

  /// The affine map, the same before and after the inversion.

  function Turn8(x: byte, n: bv4): byte
    requires n <= 8
  {
    (x << n) | (x >> (8 - n))
  }

  function Affine(x: byte): byte { x ^ Turn8(x, 1) ^ Turn8(x, 3) ^ Turn8(x, 6) ^ Turn8(x, 7) ^ 0xd3 }

  function UnAffine(y: byte): byte
  {
    var x := y ^ 0xd3;
    x ^ Turn8(x, 2) ^ Turn8(x, 7)
  }

  lemma AffineUndone(x: byte)
    ensures UnAffine(Affine(x)) == x && Affine(UnAffine(x)) == x
  {
  }

  lemma Inverts0(x: byte)
    requires x < 0x20
    ensures Inverts(Affine(x), UnAffine(SboxRom.DataOut(x)))
  {
    assert SboxRom.DataOut(x) == if x < 0x10 then SboxRom.Cases0(x) else SboxRom.Cases1(x);
    hide SboxRom.DataOut;
  }

  lemma Inverts1(x: byte)
    requires 0x20 <= x < 0x40
    ensures Inverts(Affine(x), UnAffine(SboxRom.DataOut(x)))
  {
    assert SboxRom.DataOut(x) == if x < 0x30 then SboxRom.Cases2(x) else SboxRom.Cases3(x);
    hide SboxRom.DataOut;
  }

  lemma Inverts2(x: byte)
    requires 0x40 <= x < 0x60
    ensures Inverts(Affine(x), UnAffine(SboxRom.DataOut(x)))
  {
    assert SboxRom.DataOut(x) == if x < 0x50 then SboxRom.Cases4(x) else SboxRom.Cases5(x);
    hide SboxRom.DataOut;
  }

  lemma Inverts3(x: byte)
    requires 0x60 <= x < 0x80
    ensures Inverts(Affine(x), UnAffine(SboxRom.DataOut(x)))
  {
    assert SboxRom.DataOut(x) == if x < 0x70 then SboxRom.Cases6(x) else SboxRom.Cases7(x);
    hide SboxRom.DataOut;
  }

  lemma Inverts4(x: byte)
    requires 0x80 <= x < 0xa0
    ensures Inverts(Affine(x), UnAffine(SboxRom.DataOut(x)))
  {
    assert SboxRom.DataOut(x) == if x < 0x90 then SboxRom.Cases8(x) else SboxRom.Cases9(x);
    hide SboxRom.DataOut;
  }

  lemma Inverts5(x: byte)
    requires 0xa0 <= x < 0xc0
    ensures Inverts(Affine(x), UnAffine(SboxRom.DataOut(x)))
  {
    assert SboxRom.DataOut(x) == if x < 0xb0 then SboxRom.Cases10(x) else SboxRom.Cases11(x);
    hide SboxRom.DataOut;
  }

  lemma Inverts6(x: byte)
    requires 0xc0 <= x < 0xe0
    ensures Inverts(Affine(x), UnAffine(SboxRom.DataOut(x)))
  {
    assert SboxRom.DataOut(x) == if x < 0xd0 then SboxRom.Cases12(x) else SboxRom.Cases13(x);
    hide SboxRom.DataOut;
  }

  lemma Inverts7(x: byte)
    requires 0xe0 <= x
    ensures Inverts(Affine(x), UnAffine(SboxRom.DataOut(x)))
  {
    assert SboxRom.DataOut(x) == if x < 0xf0 then SboxRom.Cases14(x) else SboxRom.Cases15(x);
    hide SboxRom.DataOut;
  }

  // For every byte the tables hold the affine image of the inverse of its affine image, and nothing else.
  lemma SboxIsInversion(x: byte, s: byte)
    ensures SboxRom.DataOut(x) == s <==> Inverts(Affine(x), UnAffine(s))
    ensures Sbox(x) == s <==> Inverts(Affine(x), UnAffine(s))
  {
    hide SboxRom.DataOut, Sbox, Affine, UnAffine, Times;
    SboxRom.SameTable(x);
    var z := UnAffine(SboxRom.DataOut(x));
    AffineUndone(SboxRom.DataOut(x));
    AffineUndone(s);
    if x < 0x20 {
      Inverts0(x);
    } else if x < 0x40 {
      Inverts1(x);
    } else if x < 0x60 {
      Inverts2(x);
    } else if x < 0x80 {
      Inverts3(x);
    } else if x < 0xa0 {
      Inverts4(x);
    } else if x < 0xc0 {
      Inverts5(x);
    } else if x < 0xe0 {
      Inverts6(x);
    } else {
      Inverts7(x);
    }
    if Inverts(Affine(x), UnAffine(s)) {
      OneInverse(Affine(x), z, UnAffine(s));
    }
  }
}
