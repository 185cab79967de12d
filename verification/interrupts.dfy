/// Which pending interrupt the simulator takes: compute_pending_interrupts and the cause choice of prepare_interrupt.

module Interrupts {
  import opened Words

  const USER: nat := 0
  const SUPERVISOR: nat := 1
  const MACHINE: nat := 3

  predicate IsLevel(l: nat) { l == USER || l == SUPERVISOR || l == MACHINE }

  lemma ZeroHasNoBit(w: word)
    ensures w == 0 <==> forall n: bv5 :: !Bit(w, n)
  {
    if w != 0 {
      assert Bit(w, 0) || Bit(w, 1) || Bit(w, 2) || Bit(w, 3) || Bit(w, 4) || Bit(w, 5) || Bit(w, 6) || Bit(w, 7)
        || Bit(w, 8) || Bit(w, 9) || Bit(w, 10) || Bit(w, 11) || Bit(w, 12) || Bit(w, 13) || Bit(w, 14) || Bit(w, 15)
        || Bit(w, 16) || Bit(w, 17) || Bit(w, 18) || Bit(w, 19) || Bit(w, 20) || Bit(w, 21) || Bit(w, 22) || Bit(w, 23)
        || Bit(w, 24) || Bit(w, 25) || Bit(w, 26) || Bit(w, 27) || Bit(w, 28) || Bit(w, 29) || Bit(w, 30) || Bit(w, 31);
    }
  }

  // The registers the choice reads.
  datatype Lines = Lines(
    mie: word, mip: word, mideleg: word, sideleg: word, mEnabled: bool, sEnabled: bool, uEnabled: bool)

  datatype Choice = Nothing | Take(level: nat, bits: word)

  /// The code.

  function Selected(c: Lines, prv: nat): Choice
  {
    var pending := And(c.mie, c.mip);
    if pending == 0 then Nothing
    else
      var m := And(pending, Not(c.mideleg));
      if m != 0 && (prv < MACHINE || (prv == MACHINE && c.mEnabled)) then Take(MACHINE, m)
      else
        var pending' := And(pending, c.mideleg);
        var s := And(pending', Not(c.sideleg));
        if s != 0 && (prv < SUPERVISOR || (prv == SUPERVISOR && c.sEnabled)) then Take(SUPERVISOR, s)
        else
          var u := And(pending', c.sideleg);
          if u != 0 && prv == USER && c.uEnabled then Take(USER, u) else Nothing
  }

  /// What it must choose, section 3.1.9 of the RISC-V Privileged Architecture.

  predicate Pending(c: Lines, n: bv5) { Bit(c.mie, n) && Bit(c.mip, n) }

  function DelegatedTo(c: Lines, n: bv5): nat
  {
    if !Bit(c.mideleg, n) then MACHINE else if !Bit(c.sideleg, n) then SUPERVISOR else USER
  }

  predicate EnabledAt(c: Lines, level: nat)
  {
    if level == MACHINE then c.mEnabled else if level == SUPERVISOR then c.sEnabled else c.uEnabled
  }

  predicate Open(c: Lines, prv: nat, level: nat) { prv < level || (prv == level && EnabledAt(c, level)) }

  lemma MachineBits(c: Lines)
    ensures var m := And(And(c.mie, c.mip), Not(c.mideleg));
      forall n: bv5 :: Bit(m, n) == (Pending(c, n) && DelegatedTo(c, n) == MACHINE)
  {
    hide Bit, And, Not;
    forall n: bv5
      ensures Bit(And(And(c.mie, c.mip), Not(c.mideleg)), n) == (Pending(c, n) && DelegatedTo(c, n) == MACHINE)
    {
      AndBit(c.mie, c.mip, n);
      NotBit(c.mideleg, n);
      AndBit(And(c.mie, c.mip), Not(c.mideleg), n);
    }
  }

  lemma DelegatedBits(c: Lines)
    ensures var p := And(And(c.mie, c.mip), c.mideleg);
      && (forall n: bv5 :: Bit(And(p, Not(c.sideleg)), n) == (Pending(c, n) && DelegatedTo(c, n) == SUPERVISOR))
      && (forall n: bv5 :: Bit(And(p, c.sideleg), n) == (Pending(c, n) && DelegatedTo(c, n) == USER))
  {
    hide Bit, And, Not;
    var p := And(And(c.mie, c.mip), c.mideleg);
    forall n: bv5
      ensures Bit(And(p, Not(c.sideleg)), n) == (Pending(c, n) && DelegatedTo(c, n) == SUPERVISOR)
      ensures Bit(And(p, c.sideleg), n) == (Pending(c, n) && DelegatedTo(c, n) == USER)
    {
      AndBit(c.mie, c.mip, n);
      AndBit(And(c.mie, c.mip), c.mideleg, n);
      NotBit(c.sideleg, n);
      AndBit(p, Not(c.sideleg), n);
      AndBit(p, c.sideleg, n);
    }
  }

  // Exactly the pending bits of the highest level that has one and is open, and nothing only if there is none.
  lemma HighestOpenLevel(c: Lines, prv: nat)
    requires IsLevel(prv)
    ensures match Selected(c, prv)
      case Nothing => forall n: bv5 :: Pending(c, n) ==> !Open(c, prv, DelegatedTo(c, n))
      case Take(level, bits) =>
        && IsLevel(level) && prv <= level && Open(c, prv, level)
        && bits != 0 && (forall n: bv5 :: Bit(bits, n) == (Pending(c, n) && DelegatedTo(c, n) == level))
        && (forall n: bv5 :: Pending(c, n) && DelegatedTo(c, n) > level ==> !Open(c, prv, DelegatedTo(c, n)))
  {
    hide Bit, And, Not;
    var pending := And(c.mie, c.mip);
    ZeroHasNoBit(pending);
    forall n: bv5 ensures Bit(pending, n) == Pending(c, n) {
      AndBit(c.mie, c.mip, n);
    }
    MachineBits(c);
    DelegatedBits(c);
    ZeroHasNoBit(And(pending, Not(c.mideleg)));
    ZeroHasNoBit(And(And(pending, c.mideleg), Not(c.sideleg)));
    ZeroHasNoBit(And(And(pending, c.mideleg), c.sideleg));
    if Selected(c, prv) == Nothing && pending != 0 {
      forall n: bv5 | Pending(c, n) ensures !Open(c, prv, DelegatedTo(c, n)) {
        assert DelegatedTo(c, n) == MACHINE ==> Bit(And(pending, Not(c.mideleg)), n);
        assert DelegatedTo(c, n) == SUPERVISOR ==> Bit(And(And(pending, c.mideleg), Not(c.sideleg)), n);
        assert DelegatedTo(c, n) == USER ==> Bit(And(And(pending, c.mideleg), c.sideleg), n);
      }
    }
  }

  /// The cause.

  // External, software, timer of machine, supervisor, user mode: the bit numbers are the exception codes.
  const PRIORITY: seq<bv5> := [11, 3, 7, 9, 1, 5, 8, 0, 4]

  // Of each of the kinds external, software and timer machine mode comes before supervisor mode and that before user
  // mode; within a mode, external before software before timer.
  lemma PriorityRule(k: nat)
    requires k < 9
    ensures PRIORITY[k] as nat == [8, 0, 4][k % 3] + [MACHINE, SUPERVISOR, USER][k / 3]
  {
  }

  function CauseOf(bits: word): Option<bv5>
  {
    if Bit(bits, 11) then Some(11)
    else if Bit(bits, 3) then Some(3)
    else if Bit(bits, 7) then Some(7)
    else if Bit(bits, 9) then Some(9)
    else if Bit(bits, 1) then Some(1)
    else if Bit(bits, 5) then Some(5)
    else if Bit(bits, 8) then Some(8)
    else if Bit(bits, 0) then Some(0)
    else if Bit(bits, 4) then Some(4)
    else None
  }

  // The first set bit of the priority order; the exception is thrown only when none of the nine is set.
  lemma FirstInPriority(bits: word)
    ensures match CauseOf(bits)
      case Some(n) =>
        exists k :: 0 <= k < 9 && PRIORITY[k] == n && Bit(bits, n) && forall i :: 0 <= i < k ==> !Bit(bits, PRIORITY[i])
      case None => forall k :: 0 <= k < 9 ==> !Bit(bits, PRIORITY[k])
  {
    hide Bit;
    FirstOfNine(bits, 0);
  }

  function FirstFrom(bits: word, k: nat): nat
    requires k <= 9
    decreases 9 - k
  {
    if k == 9 || Bit(bits, PRIORITY[k]) then k else FirstFrom(bits, k + 1)
  }

  lemma {:induction false} FirstOfNine(bits: word, k: nat)
    requires k <= 9
    ensures k <= FirstFrom(bits, k) <= 9
    ensures FirstFrom(bits, k) < 9 ==> Bit(bits, PRIORITY[FirstFrom(bits, k)])
    ensures forall i :: k <= i < FirstFrom(bits, k) ==> !Bit(bits, PRIORITY[i])
    ensures k == 0 ==> CauseOf(bits) == if FirstFrom(bits, 0) == 9 then None else Some(PRIORITY[FirstFrom(bits, 0)])
    decreases 9 - k
  {
    hide Bit;
    if k < 9 {
      FirstOfNine(bits, k + 1);
    }
    if k == 0 {
      Unrolled(bits);
    }
  }

  lemma Unrolled(bits: word)
    ensures CauseOf(bits) == if FirstFrom(bits, 0) == 9 then None else Some(PRIORITY[FirstFrom(bits, 0)])
  {
    hide Bit;
    assert FirstFrom(bits, 8) == if Bit(bits, 4) then 8 else 9;
    assert FirstFrom(bits, 6) == if Bit(bits, 8) then 6 else if Bit(bits, 0) then 7 else FirstFrom(bits, 8);
    assert FirstFrom(bits, 4) == if Bit(bits, 1) then 4 else if Bit(bits, 5) then 5 else FirstFrom(bits, 6);
    assert FirstFrom(bits, 2) == if Bit(bits, 7) then 2 else if Bit(bits, 9) then 3 else FirstFrom(bits, 4);
    assert FirstFrom(bits, 0) == if Bit(bits, 11) then 0 else if Bit(bits, 3) then 1 else FirstFrom(bits, 2);
  }

  // With only the nine interrupts implemented in mip, a selected interrupt always has a cause.
  lemma SelectedHasCause(c: Lines, prv: nat)
    requires IsLevel(prv) && Selected(c, prv).Take?
    requires forall n: bv5 :: Bit(c.mip, n) ==> n in PRIORITY
    ensures CauseOf(Selected(c, prv).bits).Some?
  {
    hide Bit, Selected;
    HighestOpenLevel(c, prv);
    var bits := Selected(c, prv).bits;
    ZeroHasNoBit(bits);
    var n: bv5 :| Bit(bits, n);
    assert Bit(c.mip, n) && n in PRIORITY;
    FirstInPriority(bits);
  }
}
