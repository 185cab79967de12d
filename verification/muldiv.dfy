/// The M extension in iss.cpp: multiply, divide and remainder on 32-bit registers, and the calls they make to
/// the pipeline timing.

module MulDiv {
  import opened Arith
  import opened PipelineTiming

  const M32 := 0x1_0000_0000
  const M64 := 0x1_0000_0000_0000_0000
  const REG_MIN := -0x8000_0000

  type int32 = x: int | -0x8000_0000 <= x < 0x8000_0000

  // The casts (uint32_t), (int32_t), (uint64_t) and (int64_t).
  function U32(x: int): (r: nat)
    ensures r < M32
  {
    x % M32
  }

  function S32(x: int): int32 { if x % M32 < 0x8000_0000 then x % M32 else x % M32 - M32 }

  function U64(x: int): nat { x % M64 }

  function S64(x: int): int { if x % M64 < 0x8000_0000_0000_0000 then x % M64 else x % M64 - M64 }

  // ans & 0xFFFFFFFF and (ans & 0xFFFFFFFF00000000) >> 32, written to a register.
  function Low(ans: int): int32 { S32(U64(ans) % M32) }

  function High(ans: int): int32 { S32(U64(ans) / M32) }

  // C division truncates towards zero.
  function Quotient(a: int, b: int): int
    requires b != 0
  {
    if a >= 0 then (if b > 0 then a / b else -(a / -b)) else if b > 0 then -(-a / b) else -a / -b
  }

  function Remainder(a: int, b: int): int
    requires b != 0
  {
    var d := Magnitude(b);
    if a >= 0 then a % d else -(-a % d)
  }

  datatype Op = Mul | Mulh | Mulhu | Mulhsu | Div | Divu | Rem | Remu {
    predicate Multiplies() { Mul? || Mulh? || Mulhu? || Mulhsu? }
  }

  function Result(op: Op, a: int32, b: int32): int32
  {
    match op
    case Mul => Low(S64(a * b))
    case Mulh => High(S64(a * b))
    case Mulhu => High(S64(U32(a) * U32(b)))
    case Mulhsu => High(S64(U64(a) * U32(b)))
    case Div => if b == 0 then -1 else if a == REG_MIN && b == -1 then a else S32(Quotient(a, b))
    case Divu => if b == 0 then -1 else S32(U32(a) / U32(b))
    case Rem => if b == 0 then a else if a == REG_MIN && b == -1 then 0 else S32(Remainder(a, b))
    case Remu => if b == 0 then a else S32(U32(a) % U32(b))
  }

  // The operations that occupy the multiplier are those that make 0 of anything and 0; a division by 0 makes -1 or
  // leaves the dividend.
  lemma MultipliesByZero(op: Op)
    ensures op.Multiplies() <==> forall a: int32 :: Result(op, a, 0) == 0
  {
    assert !op.Multiplies() ==> Result(op, 1, 0) != 0;
  }

  function Magnitude(x: int): nat { if x >= 0 then x else -x }

  /// Multiplication is exact: the high and the low word joined are the product.

  lemma CastBack(p: int)
    ensures U64(S64(p)) == p % M64
  {
  }

  lemma WordsOf(p: int)
    ensures U32(Low(S64(p))) == p % M64 % M32 && U32(High(S64(p))) == p % M64 / M32
  {
    CastBack(p);
    U32OfS32(p % M64 % M32);
    U32OfS32(p % M64 / M32);
  }

  lemma LowOfProduct(p: int)
    ensures p % M64 % M32 == p % M32 && p == p % M64 + M64 * (p / M64)
  {
    assert p == p % M64 + M64 * (p / M64);
    AddsMultiple(p % M64, p / M64 * M32);
  }

  lemma SignedHigh(p: int)
    requires -0x8000_0000_0000_0000 <= p < 0x8000_0000_0000_0000
    ensures High(S64(p)) * M32 + p % M64 % M32 == p
  {
    CastBack(p);
    var m := p % M64;
    assert m == if p >= 0 then p else p + M64;
    assert High(S64(p)) == S32(m / M32);
    assert m == m / M32 * M32 + m % M32;
    assert S32(m / M32) == if p >= 0 then m / M32 else m / M32 - M32;
  }

  lemma Split(p: int)
    ensures U32(Low(S64(p))) == p % M32
    ensures U32(High(S64(p))) * M32 + U32(Low(S64(p))) == p % M64
    ensures -0x8000_0000_0000_0000 <= p < 0x8000_0000_0000_0000 ==> High(S64(p)) * M32 + U32(Low(S64(p))) == p
  {
    hide U32, S64, Low, High;
    WordsOf(p);
    LowOfProduct(p);
    if -0x8000_0000_0000_0000 <= p < 0x8000_0000_0000_0000 {
      SignedHigh(p);
    }
  }

  lemma MulBounds(a: int, b: int, m: int, n: int)
    requires -m <= a <= m && -n <= b <= n
    ensures -(m * n) <= a * b <= m * n
  {
    if a >= 0 {
      MulOrder(b, n, a);
      MulOrder(-n, b, a);
      MulOrder(a, m, n);
    } else {
      MulOrder(b, n, -a);
      MulOrder(-n, b, -a);
      MulOrder(-a, m, n);
    }
  }

  lemma MulOrder(x: int, y: int, k: int)
    requires x <= y && k >= 0
    ensures x * k <= y * k
  {
  }

  lemma U32Is(a: int32)
    ensures U32(a) == if a >= 0 then a else a + M32
  {
  }

  // The signedness of the operands changes the product by multiples of 2^32 only.
  lemma SameLowWord(a: int32, b: int32)
    ensures (U32(a) * U32(b)) % M32 == (a * b) % M32
    ensures (a * U32(b)) % M32 == (a * b) % M32
  {
    U32Is(a);
    U32Is(b);
    assert (a + M32) * b == a * b + M32 * b;
    assert a * (b + M32) == a * b + M32 * a;
    assert (a + M32) * (b + M32) == a * b + M32 * (a + b + M32);
    AddsMultiple(a * b, b);
    AddsMultiple(a * b, a);
    AddsMultiple(a * b, a + b + M32);
  }

  lemma AddsMultiple(x: int, k: int)
    ensures (x + M32 * k) % M32 == x % M32
  {
  }

  lemma SignedProduct(a: int32, b: int32)
    ensures Result(Mulh, a, b) * M32 + U32(Result(Mul, a, b)) == a * b
  {
    hide U32, S64, Low, High;
    MulBounds(a, b, 0x8000_0000, 0x8000_0000);
    Split(a * b);
  }

  lemma UnsignedProduct(a: int32, b: int32)
    ensures U32(Result(Mulhu, a, b)) * M32 + U32(Result(Mul, a, b)) == U32(a) * U32(b)
  {
    hide U32, S64, Low, High;
    SameLowWord(a, b);
    Split(U32(a) * U32(b));
    Split(a * b);
    MulOrder(0, U32(a), U32(b));
    MulOrder(U32(a), M32 - 1, U32(b));
    MulOrder(U32(b), M32 - 1, M32 - 1);
    assert 0 <= U32(a) * U32(b) < M64;
    InRange(U32(a) * U32(b));
  }

  lemma InRange(p: int)
    requires 0 <= p < M64
    ensures p % M64 == p && p % M64 % M32 == p % M32
  {
  }

  lemma MixedProduct(a: int32, b: int32)
    ensures Result(Mulhsu, a, b) * M32 + U32(Result(Mul, a, b)) == a * U32(b)
  {
    SameLowWord(a, b);
    U64Times(a, U32(b));
    hide U32, S64, Low, High;
    MulBounds(a, U32(b), 0x8000_0000, M32 - 1);
    Split(a * U32(b));
    Split(a * b);
  }

  // (int64_t)a * (uint64_t)b is an unsigned product; modulo 2^64 the sign of a makes no difference.
  lemma U64Times(a: int32, n: nat)
    ensures S64(U64(a) * n) == S64(a * n)
  {
    if a < 0 {
      assert U64(a) == a + M64;
      assert (a + M64) * n == a * n + M64 * n;
      AddsMultiple64(a * n, n);
    }
  }

  lemma AddsMultiple64(x: int, k: int)
    ensures (x + M64 * k) % M64 == x % M64
  {
  }

  /// Division.

  predicate Overflows(a: int, b: int) { a == REG_MIN && b == -1 }

  // What C promises of / and %: unique quotient and remainder, the remainder smaller than the divisor and with
  // the sign of the dividend.
  predicate Truncates(a: int, b: int, q: int, r: int)
  {
    && q * b + r == a
    && 0 - Magnitude(b) < r < Magnitude(b)
    && (a >= 0 ==> r >= 0) && (a <= 0 ==> r <= 0)
  }

  lemma Negated(x: int, y: int)
    ensures (-x) * y == -(x * y) && x * (-y) == -(x * y) && (-x) * (-y) == x * y
  {
  }

  lemma QuotientBySign(a: int, b: int)
    requires b != 0
    ensures var n: int, d: int := Magnitude(a), Magnitude(b);
      && Quotient(a, b) == (if (a >= 0) == (b > 0) then n / d else 0 - n / d)
      && Remainder(a, b) == if a >= 0 then n % d else 0 - n % d
  {
  }

  lemma QuotientTruncates(a: int, b: int)
    requires b != 0
    ensures Truncates(a, b, Quotient(a, b), Remainder(a, b))
  {
    hide Quotient, Remainder;
    var n: int, d: int := Magnitude(a), Magnitude(b);
    QuotientBySign(a, b);
    DivMod(n, d);
    Negated(n / d, d);
  }

  lemma SmallMultiple(k: int, b: int)
    requires Magnitude(k * b) < Magnitude(b)
    ensures k == 0
  {
    MagnitudeTimes(k, b);
    if k != 0 {
      MulOrder(1, Magnitude(k), Magnitude(b));
    }
  }

  lemma MagnitudeTimes(k: int, b: int)
    ensures Magnitude(k) * Magnitude(b) == Magnitude(k * b)
  {
    Negated(k, b);
    MulOrder(0, Magnitude(k), Magnitude(b));
  }

  lemma TruncationIsUnique(a: int, b: int, q: int, r: int, q': int, r': int)
    requires b != 0 && Truncates(a, b, q, r) && Truncates(a, b, q', r')
    ensures q == q' && r == r'
  {
    assert (q - q') * b == q * b - q' * b;
    SmallMultiple(q - q', b);
  }

  lemma QuotientFits(a: int32, b: int32)
    requires b != 0 && !Overflows(a, b)
    ensures S32(Quotient(a, b)) == Quotient(a, b) && S32(Remainder(a, b)) == Remainder(a, b)
  {
    var n: int, d: int := Magnitude(a), Magnitude(b);
    QuotientBySign(a, b);
    DivMod(n, d);
    MulOrder(1, d, n / d);
    if d >= 2 {
      MulOrder(2, d, n / d);
    }
    hide Quotient, Remainder;
    Fits(Quotient(a, b));
    Fits(Remainder(a, b));
  }

  lemma Fits(x: int)
    requires REG_MIN <= x < 0x8000_0000
    ensures S32(x) == x
  {
  }

  lemma SignedDivision(a: int32, b: int32)
    ensures var q, r := Result(Div, a, b), Result(Rem, a, b);
      && U32(q * b + r) == U32(a)
      && (b == 0 ==> q == -1 && r == a)
      && (Overflows(a, b) ==> q == a && r == 0)
      && (b != 0 && !Overflows(a, b) ==> Truncates(a, b, q, r))
      && (b != 0 ==> 0 - Magnitude(b) < r < Magnitude(b))
  {
    hide Quotient, Remainder;
    if b != 0 && !Overflows(a, b) {
      QuotientFits(a, b);
      QuotientTruncates(a, b);
    }
  }

  lemma UnsignedDivision(a: int32, b: int32)
    ensures var q, r := U32(Result(Divu, a, b)), U32(Result(Remu, a, b));
      && U32(q * U32(b) + r) == U32(a)
      && (b == 0 ==> q == M32 - 1 && r == U32(a))
      && (b != 0 ==> q * U32(b) + r == U32(a) && r < U32(b))
  {
    U32Is(b);
    if b != 0 {
      var x, y := U32(a), U32(b);
      DivMod(x, y);
      MulOrder(1, y, x / y);
      assert x / y < M32;
      U32OfS32(x / y);
      U32OfS32(x % y);
      assert Result(Divu, a, b) == S32(x / y) && Result(Remu, a, b) == S32(x % y);
      hide Result, S32;
      assert U32(x) == x;
    }
  }

  lemma U32OfS32(x: int)
    requires 0 <= x < M32
    ensures U32(S32(x)) == x
  {
  }

  /// The instruction as executed: read both operands, write the result, then occupy the unit.
  class Executor {
    const regs: array<int32>
    const board: Scoreboard

    constructor ()
      ensures fresh(regs) && fresh(board) && regs.Length == 32 && Sound(board.Now())
    {
      regs := new int32[32](i => 0);
      board := new Scoreboard();
    }

    method Read(r: nat) returns (x: int32)
      requires r < regs.Length && Sound(board.Now())
      modifies board
      ensures x == regs[r] && Sound(board.Now()) && board.Now() == Access(old(board.Now()), r)
    {
      board.AccessRegister(r);
      x := regs[r];
    }

    method Write(r: nat, x: int32)
      requires r < regs.Length && Sound(board.Now())
      modifies board, regs
      ensures regs[..] == old(regs[..])[r := x]
      ensures Sound(board.Now()) && board.Now() == Access(old(board.Now()), r)
    {
      board.AccessRegister(r);
      regs[r] := x;
    }

    method Execute(op: Op, rd: nat, rs1: nat, rs2: nat)
      requires regs.Length == 32 && rd < 32 && rs1 < 32 && rs2 < 32 && Sound(board.Now())
      modifies board, regs
      ensures regs[..] == old(regs[..])[rd := Result(op, old(regs[rs1]), old(regs[rs2]))]
      ensures Sound(board.Now())
      ensures board.Now() == Do(Do(Do(old(board.Now()), Call.Read(rs1)), Call.Read(rs2)),
                                if op.Multiplies() then MultTo(rd) else DivTo(rd))
    {
      hide Result, Access, PipelineTiming.Mult, PipelineTiming.Div, Sound;
      var a := Read(rs1);
      var b := Read(rs2);
      WriteLeavesNothingPending(board.Now(), rd);
      Write(rd, Result(op, a, b));
      if op.Multiplies() {
        board.DoMult(rd);
      } else {
        board.DoDiv(rd);
      }
    }
  }
}
