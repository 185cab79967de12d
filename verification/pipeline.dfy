/// HiFive1PipelineTiming of timing.h with the E203 constants, as the instruction-set simulator calls it.

module PipelineTiming {
  import opened Arith

  const WORD_RANGE: nat := 0x1_0000_0000

  // Addresses are 32-bit; end may have wrapped around.
  datatype Range = Range(start: nat, end: nat) {
    predicate Overlaps(other: Range)
    {
      if other.start < start then other.end > start else end > other.start
    }

    function Size(): nat { (end - start) % WORD_RANGE }
  }

  function RangeOf(addr: nat, size: nat): Range { Range(addr % WORD_RANGE, (addr + size) % WORD_RANGE) }

  datatype RegisterLatency = RegisterLatency(reg: nat, latency: int)
  datatype StoreReservation = StoreReservation(range: Range, latency: int)
  datatype Unit = Unit(acquired: bool, latency: int)

  datatype Pipe = Pipe(
    regs: seq<RegisterLatency>, mult: Unit, div: Unit, stores: seq<StoreReservation>, total: int)

  predicate Distinct(s: seq<RegisterLatency>)
  {
    forall i, j :: 0 <= i < j < |s| ==> s[i].reg != s[j].reg
  }

  // The state in which no assert of the scoreboard can fire.
  ghost predicate Sound(p: Pipe)
  {
    && (forall e :: e in p.regs ==> e.latency > 0)
    && Distinct(p.regs)
    && (p.mult.acquired ==> p.mult.latency > 0)
    && (p.div.acquired ==> p.div.latency > 0)
    && (forall e :: e in p.stores ==> e.latency > 0)
  }

  /// Each operation as a function of the whole state.

  function AdvanceRegs(s: seq<RegisterLatency>, n: int): seq<RegisterLatency>
  {
    if s == [] then []
    else (if s[0].latency - n > 0 then [s[0].(latency := s[0].latency - n)] else []) + AdvanceRegs(s[1..], n)
  }

  function AdvanceStores(s: seq<StoreReservation>, n: int): seq<StoreReservation>
  {
    if s == [] then []
    else (if s[0].latency - n > 0 then [s[0].(latency := s[0].latency - n)] else []) + AdvanceStores(s[1..], n)
  }

  function AdvanceUnit(u: Unit, n: int): Unit
  {
    if !u.acquired then u else Unit(u.latency - n > 0, u.latency - n)
  }

  function Advance(p: Pipe, n: int): Pipe
  {
    Pipe(AdvanceRegs(p.regs, n), AdvanceUnit(p.mult, n), AdvanceUnit(p.div, n), AdvanceStores(p.stores, n), p.total + n)
  }

  // The pending latency of a register, 0 if it has none.
  function Pending(s: seq<RegisterLatency>, reg: nat): int
  {
    if s == [] then 0 else if s[0].reg == reg then s[0].latency else Pending(s[1..], reg)
  }

  function Access(p: Pipe, reg: nat): Pipe
  {
    if Pending(p.regs, reg) > 0 then Advance(p, Pending(p.regs, reg)) else p
  }

  function AddResult(p: Pipe, reg: nat, n: int): Pipe { p.(regs := p.regs + [RegisterLatency(reg, n)]) }

  // stall, where it is called at all.
  function Stalled(p: Pipe, n: int): Pipe { if n == 0 then p else Advance(p, n) }

  function Wait(p: Pipe, u: Unit): Pipe { if u.acquired then Advance(p, u.latency) else p }

  const MULT_LATENCY := 17
  const DIV_LATENCY := 33
  const CSR_LATENCY := 5
  const LOAD_LATENCY := 2
  const STORE_CYCLES := 1

  function Mult(p: Pipe, rd: nat): Pipe
  {
    AddResult(Wait(p, p.mult).(mult := Unit(true, MULT_LATENCY)), rd, MULT_LATENCY + 1)
  }

  function Div(p: Pipe, rd: nat): Pipe
  {
    AddResult(Wait(p, p.div).(div := Unit(true, DIV_LATENCY)), rd, DIV_LATENCY + 1)
  }

  predicate Hit(s: seq<StoreReservation>, r: Range)
  {
    exists k :: 0 <= k < |s| && s[k].range.Overlaps(r)
  }

  function Load(p: Pipe, r: Range, rd: nat): Pipe
  {
    if Hit(p.stores, r) then AddResult(Advance(p, 1), rd, LOAD_LATENCY + if r.Size() < 4 then 1 else 0)
    else AddResult(p, rd, LOAD_LATENCY)
  }

  function Store(p: Pipe, r: Range): Pipe
  {
    p.(stores := p.stores + [StoreReservation(r, STORE_CYCLES + 1)])
  }

  // advance asserts that its argument is positive.
  type Cycles = n: int | n > 0 witness 1

  /// What the simulator calls, in the order it calls it: a result is written (an access of rd) before
  /// its latency is added.
  datatype Call =
    | Read(reg: nat)
    | LoadTo(rd: nat, addr: nat, size: nat)
    | MultTo(rd: nat)
    | DivTo(rd: nat)
    | CsrTo(rd: nat)
    | StoreAt(addr: nat, size: nat)
    | Tick(n: Cycles)

  function Do(p: Pipe, c: Call): Pipe
  {
    match c
    case Read(r) => Access(p, r)
    case LoadTo(rd, addr, size) => Load(Access(p, rd), RangeOf(addr, size), rd)
    case MultTo(rd) => Mult(Access(p, rd), rd)
    case DivTo(rd) => Div(Access(p, rd), rd)
    case CsrTo(rd) => AddResult(Access(p, rd), rd, CSR_LATENCY)
    case StoreAt(addr, size) => Store(p, RangeOf(addr, size))
    case Tick(n) => Advance(p, n)
  }

  /// The scoreboard as written.
  class Scoreboard {
    var regs: seq<RegisterLatency>
    var mult: Unit
    var div: Unit
    var stores: seq<StoreReservation>
    var total: int

    ghost function Now(): Pipe
      reads this
    {
      Pipe(regs, mult, div, stores, total)
    }

    constructor ()
      ensures Now() == Pipe([], Unit(false, 0), Unit(false, 0), [], 0) && Sound(Now())
    {
      regs, mult, div, stores, total := [], Unit(false, 0), Unit(false, 0), [], 0;
    }

    // One OperationReservation::advance.
    static method AdvanceReservation(u: Unit, n: int) returns (v: Unit)
      requires n > 0 && (u.acquired ==> u.latency > 0)
      ensures v == AdvanceUnit(u, n)
    {
      v := u;
      if v.acquired {
        assert v.latency > 0;
        v := v.(latency := v.latency - n);
        if v.latency <= 0 {
          assert v.latency <= 0 && v.acquired;
          v := v.(acquired := false);
        }
      }
    }

    // Erasing while iterating.
    static method ExpireRegisters(all: seq<RegisterLatency>, n: int) returns (s: seq<RegisterLatency>)
      requires n > 0 && forall e :: e in all ==> e.latency > 0
      ensures s == AdvanceRegs(all, n)
    {
      s := all;
      var i := 0;
      while i < |s|
        invariant 0 <= i <= |s|
        invariant forall k :: i <= k < |s| ==> s[k].latency > 0
        invariant s[..i] + AdvanceRegs(s[i..], n) == AdvanceRegs(all, n)
        decreases |s| - i
      {
        assert s[i].latency > 0;
        ghost var before := s;
        assert before[i..][1..] == before[i + 1..];
        var left := s[i].latency - n;
        if left <= 0 {
          s := s[..i] + s[i + 1..];
          assert s[i..] == before[i + 1..] && s[..i] == before[..i];
        } else {
          s := s[i := s[i].(latency := left)];
          i := i + 1;
          assert s[i..] == before[i..] && s[..i] == before[..i - 1] + [s[i - 1]];
        }
      }
      assert s[..i] == s && s[i..] == [];
    }

    // Erasing while iterating.
    static method ExpireReservations(all: seq<StoreReservation>, n: int) returns (s: seq<StoreReservation>)
      requires n > 0 && forall e :: e in all ==> e.latency > 0
      ensures s == AdvanceStores(all, n)
    {
      s := all;
      var i := 0;
      while i < |s|
        invariant 0 <= i <= |s|
        invariant forall k :: i <= k < |s| ==> s[k].latency > 0
        invariant s[..i] + AdvanceStores(s[i..], n) == AdvanceStores(all, n)
        decreases |s| - i
      {
        assert s[i].latency > 0;
        ghost var before := s;
        assert before[i..][1..] == before[i + 1..];
        var left := s[i].latency - n;
        if left <= 0 {
          s := s[..i] + s[i + 1..];
          assert s[i..] == before[i + 1..] && s[..i] == before[..i];
        } else {
          s := s[i := s[i].(latency := left)];
          i := i + 1;
          assert s[i..] == before[i..] && s[..i] == before[..i - 1] + [s[i - 1]];
        }
      }
      assert s[..i] == s && s[i..] == [];
    }

    method AdvanceAll(n: int)
      requires n > 0 && Sound(Now())
      modifies this
      ensures Now() == Advance(old(Now()), n) && Sound(Now())
    {
      AdvanceIsSound(Now(), n);
      regs := ExpireRegisters(regs, n);
      mult := AdvanceReservation(mult, n);
      div := AdvanceReservation(div, n);
      stores := ExpireReservations(stores, n);
      total := total + n;
    }

    method Stall(n: int)
      requires n > 0 && Sound(Now())
      modifies this
      ensures Now() == Stalled(old(Now()), n) && total == old(total) + n && Sound(Now())
    {
      AdvanceAll(n);
    }

    method AccessRegister(reg: nat)
      requires Sound(Now())
      modifies this
      ensures Now() == Access(old(Now()), reg) && Sound(Now())
    {
      var i := 0;
      while i < |regs|
        invariant 0 <= i <= |regs| && Now() == old(Now())
        invariant Pending(regs[i..], reg) == Pending(regs, reg)
      {
        if regs[i].reg == reg {
          AdvanceAll(regs[i].latency);
          return;
        }
        assert regs[i..][1..] == regs[i + 1..];
        i := i + 1;
      }
    }

    method AddResultLatency(reg: nat, n: int)
      requires Sound(Now()) && Pending(regs, reg) == 0 && n > 0
      modifies this`regs
      ensures Now() == AddResult(old(Now()), reg, n) && Sound(Now())
    {
      PendingIsMembership(regs, reg);
      regs := regs + [RegisterLatency(reg, n)];
    }

    method DoMult(rd: nat)
      requires Sound(Now()) && Pending(regs, rd) == 0
      modifies this
      ensures Now() == Mult(old(Now()), rd) && Sound(Now())
    {
      ghost var was := Now();
      if mult.acquired {
        PendingAdvances(was.regs, mult.latency, rd);
        AdvanceAll(mult.latency);
      }
      assert !mult.acquired;
      mult := Unit(true, MULT_LATENCY);
      AddResultLatency(rd, MULT_LATENCY + 1);
    }

    method DoDiv(rd: nat)
      requires Sound(Now()) && Pending(regs, rd) == 0
      modifies this
      ensures Now() == Div(old(Now()), rd) && Sound(Now())
    {
      ghost var was := Now();
      if div.acquired {
        PendingAdvances(was.regs, div.latency, rd);
        AdvanceAll(div.latency);
      }
      assert !div.acquired;
      div := Unit(true, DIV_LATENCY);
      AddResultLatency(rd, DIV_LATENCY + 1);
    }

    method HasStoreReservation(r: Range) returns (hit: bool)
      ensures hit == Hit(stores, r)
    {
      var i := 0;
      while i < |stores|
        invariant 0 <= i <= |stores| && forall k :: 0 <= k < i ==> !stores[k].range.Overlaps(r)
      {
        if stores[i].range.Overlaps(r) {
          return true;
        }
        i := i + 1;
      }
      return false;
    }

    method DoLoad(r: Range, rd: nat)
      requires Sound(Now()) && Pending(regs, rd) == 0
      modifies this
      ensures Now() == Load(old(Now()), r, rd) && Sound(Now())
    {
      hide Hit, AdvanceStores, AdvanceRegs;
      var extra := 0;
      var hit := HasStoreReservation(r);
      if hit {
        PendingAdvances(regs, 1, rd);
        AdvanceAll(1);
        if r.Size() < 4 {
          extra := extra + 1;
        }
      }
      AddResultLatency(rd, LOAD_LATENCY + extra);
    }

    method ReserveStore(r: Range)
      requires Sound(Now())
      modifies this`stores
      ensures Now() == Store(old(Now()), r) && Sound(Now())
    {
      stores := stores + [StoreReservation(r, STORE_CYCLES + 1)];
    }

    // The simulator's calls: no assert of the scoreboard fires.
    method Execute(c: Call)
      requires Sound(Now())
      modifies this
      ensures Now() == Do(old(Now()), c) && Sound(Now())
    {
      match c {
        case Read(r) => AccessRegister(r);
        case LoadTo(rd, addr, size) =>
          WriteLeavesNothingPending(Now(), rd);
          AccessRegister(rd);
          DoLoad(RangeOf(addr, size), rd);
        case MultTo(rd) =>
          WriteLeavesNothingPending(Now(), rd);
          AccessRegister(rd);
          DoMult(rd);
        case DivTo(rd) =>
          WriteLeavesNothingPending(Now(), rd);
          AccessRegister(rd);
          DoDiv(rd);
        case CsrTo(rd) =>
          WriteLeavesNothingPending(Now(), rd);
          AccessRegister(rd);
          AddResultLatency(rd, CSR_LATENCY);
        case StoreAt(addr, size) => ReserveStore(RangeOf(addr, size));
        case Tick(n) => AdvanceAll(n);
      }
    }
  }

  /// Facts about the lists.

  lemma {:induction false} AdvancedMembers(s: seq<RegisterLatency>, n: int)
    ensures forall e :: e in AdvanceRegs(s, n) ==> e.latency > 0 && e.(latency := e.latency + n) in s
  {
    if s != [] {
      AdvancedMembers(s[1..], n);
    }
  }

  lemma DistinctCons(x: RegisterLatency, s: seq<RegisterLatency>)
    requires Distinct(s) && forall e :: e in s ==> e.reg != x.reg
    ensures Distinct([x] + s)
  {
    var t := [x] + s;
    forall i, j | 0 <= i < j < |t| ensures t[i].reg != t[j].reg {
      assert t[j] == s[j - 1] && s[j - 1] in s;
    }
  }

  lemma {:induction false} AdvanceKeepsDistinct(s: seq<RegisterLatency>, n: int)
    requires Distinct(s)
    ensures Distinct(AdvanceRegs(s, n))
  {
    if s != [] {
      AdvanceKeepsDistinct(s[1..], n);
      AdvancedMembers(s[1..], n);
      var u := AdvanceRegs(s[1..], n);
      var x := s[0].(latency := s[0].latency - n);
      forall e | e in u ensures e.reg != x.reg {
        assert e.(latency := e.latency + n) in s[1..];
      }
      DistinctCons(x, u);
      assert AdvanceRegs(s, n) == if x.latency > 0 then [x] + u else u;
    }
  }

  lemma {:induction false} AdvancedStoresPositive(s: seq<StoreReservation>, n: int)
    ensures forall e :: e in AdvanceStores(s, n) ==> e.latency > 0
  {
    if s != [] {
      AdvancedStoresPositive(s[1..], n);
    }
  }

  lemma AdvanceIsSound(p: Pipe, n: int)
    requires Sound(p) && n > 0
    ensures Sound(Advance(p, n))
  {
    AdvancedMembers(p.regs, n);
    AdvanceKeepsDistinct(p.regs, n);
    AdvancedStoresPositive(p.stores, n);
  }

  lemma {:induction false} PendingIsMembership(s: seq<RegisterLatency>, reg: nat)
    requires forall e :: e in s ==> e.latency > 0
    ensures Pending(s, reg) >= 0 && (Pending(s, reg) > 0 <==> exists e :: e in s && e.reg == reg)
  {
    if s != [] {
      PendingIsMembership(s[1..], reg);
      assert s[0] in s;
    }
  }

  // Advancing lowers every pending latency by the elapsed time, down to nothing.
  lemma {:induction false} PendingAdvances(s: seq<RegisterLatency>, n: int, reg: nat)
    requires n > 0 && (forall e :: e in s ==> e.latency > 0)
    requires Distinct(s)
    ensures Pending(AdvanceRegs(s, n), reg) == Max(0, Pending(s, reg) - n)
  {
    if s != [] {
      PendingAdvances(s[1..], n, reg);
      assert s[0] in s;
      PendingIsMembership(s[1..], reg);
      if s[0].reg == reg {
        assert forall e :: e in s[1..] ==> e.reg != reg;
      }
      var head := if s[0].latency - n > 0 then [s[0].(latency := s[0].latency - n)] else [];
      assert (head + AdvanceRegs(s[1..], n))[|head|..] == AdvanceRegs(s[1..], n);
    }
  }

  lemma WriteLeavesNothingPending(p: Pipe, rd: nat)
    requires Sound(p)
    ensures Pending(Access(p, rd).regs, rd) == 0
  {
    PendingIsMembership(p.regs, rd);
    if Pending(p.regs, rd) > 0 {
      PendingAdvances(p.regs, Pending(p.regs, rd), rd);
    }
  }

  /// What the latencies come to in cycles.

  lemma {:induction false} PendingAppends(s: seq<RegisterLatency>, e: RegisterLatency, reg: nat)
    requires Pending(s, e.reg) == 0 && e.latency > 0
    requires forall x :: x in s ==> x.latency > 0
    ensures Pending(s + [e], reg) == if reg == e.reg then e.latency else Pending(s, reg)
  {
    if s != [] {
      assert s[0] in s;
      assert (s + [e])[1..] == s[1..] + [e];
      PendingAppends(s[1..], e, reg);
    }
  }

  lemma AccessIsSound(p: Pipe, reg: nat)
    requires Sound(p)
    ensures Sound(Access(p, reg)) && Access(p, reg).total == p.total + Pending(p.regs, reg)
    ensures Pending(p.regs, reg) >= 0
  {
    PendingIsMembership(p.regs, reg);
    if Pending(p.regs, reg) > 0 {
      AdvanceIsSound(p, Pending(p.regs, reg));
    }
  }

  lemma WaitIsSound(p: Pipe, u: Unit, rd: nat)
    requires Sound(p) && (u.acquired ==> u.latency > 0) && Pending(p.regs, rd) == 0
    ensures Sound(Wait(p, u)) && Pending(Wait(p, u).regs, rd) == 0
    ensures Wait(p, u).total == p.total + if u.acquired then u.latency else 0
  {
    if u.acquired {
      AdvanceIsSound(p, u.latency);
      PendingAdvances(p.regs, u.latency, rd);
    }
  }

  // The instruction after a result of a unit or a CSR that reads it waits this long.
  lemma ResultsTake(p: Pipe, rd: nat)
    requires Sound(p)
    ensures Do(Do(p, MultTo(rd)), Call.Read(rd)).total == Do(p, MultTo(rd)).total + 18
    ensures Do(Do(p, DivTo(rd)), Call.Read(rd)).total == Do(p, DivTo(rd)).total + 34
    ensures Do(Do(p, CsrTo(rd)), Call.Read(rd)).total == Do(p, CsrTo(rd)).total + 5
  {
    var q := Access(p, rd);
    AccessIsSound(p, rd);
    WriteLeavesNothingPending(p, rd);
    WaitIsSound(q, q.mult, rd);
    WaitIsSound(q, q.div, rd);
    hide Access, Wait, Sound, Pending;
    PendingAppends(Wait(q, q.mult).regs, RegisterLatency(rd, 18), rd) by { SoundPositive(Wait(q, q.mult)); }
    PendingAppends(Wait(q, q.div).regs, RegisterLatency(rd, 34), rd) by { SoundPositive(Wait(q, q.div)); }
    PendingAppends(q.regs, RegisterLatency(rd, 5), rd) by { SoundPositive(q); }
    AccessCosts(Do(p, MultTo(rd)), rd, 18);
    AccessCosts(Do(p, DivTo(rd)), rd, 34);
    AccessCosts(Do(p, CsrTo(rd)), rd, 5);
  }

  lemma SoundPositive(p: Pipe)
    requires Sound(p)
    ensures forall e :: e in p.regs ==> e.latency > 0
  {
  }

  lemma AccessCosts(p: Pipe, reg: nat, n: int)
    requires Pending(p.regs, reg) == n > 0
    ensures Access(p, reg).total == p.total + n
  {
  }

  // A load that meets a store stalls one cycle, and below word size its result comes one cycle later.
  lemma LoadsTake(p: Pipe, rd: nat, addr: nat, size: nat)
    requires Sound(p)
    ensures var met := Hit(Access(p, rd).stores, RangeOf(addr, size));
      var q := Do(p, LoadTo(rd, addr, size));
      && q.total == p.total + Pending(p.regs, rd) + (if met then 1 else 0)
      && Do(q, Call.Read(rd)).total == q.total + (if met && size % 0x1_0000_0000 < 4 then 3 else 2)
  {
    var q := Access(p, rd);
    AccessIsSound(p, rd);
    WriteLeavesNothingPending(p, rd);
    var met := Hit(q.stores, RangeOf(addr, size));
    RangeSize(addr, size);
    var n := if met && size % 0x1_0000_0000 < 4 then 3 else 2;
    if met {
      AdvanceIsSound(q, 1);
      PendingAdvances(q.regs, 1, rd);
      PendingAppends(Advance(q, 1).regs, RegisterLatency(rd, n), rd);
    } else {
      PendingAppends(q.regs, RegisterLatency(rd, n), rd);
    }
    hide Access, Hit, Sound, Pending, AdvanceRegs;
    AccessCosts(Do(p, LoadTo(rd, addr, size)), rd, n);
  }

  lemma RangeSize(addr: nat, size: nat)
    ensures RangeOf(addr, size).Size() == size % 0x1_0000_0000
  {
  }

  // The next instruction of the same unit waits until the unit is free and its own target written.
  lemma UnitsTake(p: Pipe, rd: nat, next: nat)
    requires Sound(p)
    ensures var q := Do(p, MultTo(rd));
      Do(q, MultTo(next)).total == q.total + Max(17, Pending(q.regs, next))
    ensures var q := Do(p, DivTo(rd));
      Do(q, DivTo(next)).total == q.total + Max(33, Pending(q.regs, next))
  {
    MultIsSound(p, rd);
    AccessIsSound(Do(p, MultTo(rd)), next);
    AccessIsSound(Do(p, DivTo(rd)), next);
  }

  lemma MultIsSound(p: Pipe, rd: nat)
    requires Sound(p)
    ensures Sound(Do(p, MultTo(rd))) && Sound(Do(p, DivTo(rd)))
  {
    var q := Access(p, rd);
    AccessIsSound(p, rd);
    WriteLeavesNothingPending(p, rd);
    WaitIsSound(q, q.mult, rd);
    WaitIsSound(q, q.div, rd);
    AppendIsSound(Wait(q, q.mult), rd, MULT_LATENCY + 1);
    AppendIsSound(Wait(q, q.div), rd, DIV_LATENCY + 1);
  }

  lemma AppendIsSound(p: Pipe, reg: nat, n: int)
    requires Sound(p) && Pending(p.regs, reg) == 0 && n > 0
    ensures Sound(AddResult(p, reg, n))
  {
    PendingIsMembership(p.regs, reg);
  }

  // A store is in the way of loads that overlap it in its own cycle and the next.
  lemma StoresLast(p: Pipe, addr: nat, size: nat, n: nat, r: Range)
    ensures Hit(Later(Do(p, StoreAt(addr, size)), n).stores, r)
        <==> Hit(Later(p, n).stores, r) || (n < 2 && RangeOf(addr, size).Overlaps(r))
  {
    var e := StoreReservation(RangeOf(addr, size), 2);
    if n > 0 {
      StoresAppend(p.stores, e, n);
    }
    if n < 2 {
      var left := [e.(latency := 2 - n)];
      HitConcat(Later(p, n).stores, left, r);
      assert Hit(left, r) == e.range.Overlaps(r) by {
        assert left[0].range == e.range;
      }
    } else {
      assert Later(p, n).stores + [] == Later(p, n).stores;
    }
  }

  function Later(p: Pipe, n: nat): Pipe { if n == 0 then p else Do(p, Tick(n)) }

  lemma {:induction false} StoresAppend(s: seq<StoreReservation>, e: StoreReservation, n: int)
    ensures AdvanceStores(s + [e], n)
         == AdvanceStores(s, n) + if e.latency - n > 0 then [e.(latency := e.latency - n)] else []
  {
    if s == [] {
      assert ([] + [e])[1..] == [];
    } else {
      assert (s + [e])[1..] == s[1..] + [e];
      StoresAppend(s[1..], e, n);
    }
  }

  lemma HitConcat(s: seq<StoreReservation>, t: seq<StoreReservation>, r: Range)
    ensures Hit(s + t, r) == (Hit(s, r) || Hit(t, r))
  {
    if Hit(s, r) {
      var k :| 0 <= k < |s| && s[k].range.Overlaps(r);
      assert (s + t)[k] == s[k];
    }
    if Hit(t, r) {
      var k :| 0 <= k < |t| && t[k].range.Overlaps(r);
      assert (s + t)[|s| + k] == t[k];
    }
  }
}
