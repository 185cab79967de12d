/// Traps, interrupts and returns of iss.cpp over the machine's registers, and what a nest of them restores.

module Traps {
  import opened Words
  import opened Interrupts

  const PC_RANGE: nat := 0x1_0000_0000

  // mpp has two bits, spp one.
  datatype Status = Status(
    mie: bool, sie: bool, uie: bool, mpie: bool, spie: bool, upie: bool, mpp: nat, spp: nat)

  // xepc, xcause, xtval and xtvec of one level.
  datatype Level = Level(epc: nat, interrupt: bool, code: nat, tval: nat, base: nat, vectored: bool)

  datatype Csrs = Csrs(
    status: Status, m: Level, s: Level, u: Level, medeleg: word, sedeleg: word,
    mideleg: word, sideleg: word, mie: word, mip: word, userMode: bool)

  datatype Machine = Machine(pc: nat, lastPc: nat, prv: nat, csrs: Csrs)

  function LinesOf(c: Csrs): Lines
  {
    Lines(c.mie, c.mip, c.mideleg, c.sideleg, c.status.mie, c.status.sie, c.status.uie)
  }

  /// Each routine on the whole machine.

  function TrapTarget(c: Csrs, prv: nat, reason: bv5): nat
  {
    if prv == MACHINE || !Bit(c.medeleg, reason) then MACHINE
    else if prv == SUPERVISOR || !Bit(c.sedeleg, reason) then SUPERVISOR
    else USER
  }

  function LevelOf(c: Csrs, level: nat): Level
  {
    if level == MACHINE then c.m else if level == SUPERVISOR then c.s else c.u
  }

  function WithLevel(c: Csrs, level: nat, l: Level): Csrs
  {
    if level == MACHINE then c.(m := l) else if level == SUPERVISOR then c.(s := l) else c.(u := l)
  }

  function PreparedTrap(x: Machine, reason: bv5, tval: nat): Machine
  {
    var t := TrapTarget(x.csrs, x.prv, reason);
    var l := LevelOf(x.csrs, t).(interrupt := false, code := reason as nat, tval := tval);
    x.(pc := x.lastPc, csrs := WithLevel(x.csrs, t, l))
  }

  function PreparedInterrupt(x: Machine, level: nat, code: bv5): Machine
  {
    x.(csrs := WithLevel(x.csrs, level, LevelOf(x.csrs, level).(interrupt := true, code := code as nat)))
  }

  function Handler(l: Level): nat
  {
    if l.interrupt && l.vectored then (l.base + 4 * l.code) % PC_RANGE else l.base
  }

  function Switched(x: Machine, level: nat): Machine
  {
    var c := x.csrs;
    var l := LevelOf(c, level);
    var status :=
      if level == MACHINE then c.status.(mpie := c.status.mie, mie := false, mpp := x.prv % 4)
      else if level == SUPERVISOR then c.status.(spie := c.status.sie, sie := false, spp := x.prv % 2)
      else c.status.(upie := c.status.uie, uie := false);
    Machine(Handler(l), x.lastPc, level, WithLevel(c, level, l.(epc := x.pc)).(status := status))
  }

  function Returned(x: Machine, level: nat): Machine
  {
    var c := x.csrs;
    if level == MACHINE then
      var status := c.status.(mie := c.status.mpie, mpie := true, mpp := if c.userMode then USER else MACHINE);
      x.(prv := c.status.mpp, pc := c.m.epc, csrs := c.(status := status))
    else if level == SUPERVISOR then
      var status := c.status.(sie := c.status.spie, spie := true, spp := if c.userMode then USER else SUPERVISOR);
      x.(prv := c.status.spp, pc := c.s.epc, csrs := c.(status := status))
    else
      x.(prv := USER, pc := c.u.epc, csrs := c.(status := c.status.(uie := c.status.upie, upie := true)))
  }

  // What run_step finds when it looks for interrupts; prepare_interrupt throws when it knows no cause.
  datatype Outcome = NotTaken | Taken | Threw

  /// The routines as written.
  class Hart {
    var pc: nat
    var lastPc: nat
    var prv: nat
    var csrs: Csrs

    ghost function Now(): Machine
      reads this
    {
      Machine(pc, lastPc, prv, csrs)
    }

    constructor (x: Machine)
      ensures Now() == x
    {
      pc, lastPc, prv, csrs := x.pc, x.lastPc, x.prv, x.csrs;
    }

    method PrepareTrap(reason: bv5, tval: nat) returns (target: nat)
      requires IsLevel(prv)
      modifies this`pc, this`csrs
      ensures Now() == PreparedTrap(old(Now()), reason, tval)
      ensures target == TrapTarget(old(csrs), prv, reason)
    {
      hide Bit;
      pc := lastPc;
      if prv == MACHINE || !Bit(csrs.medeleg, reason) {
        csrs := csrs.(m := csrs.m.(interrupt := false, code := reason as nat, tval := tval));
        return MACHINE;
      }
      if prv == SUPERVISOR || !Bit(csrs.sedeleg, reason) {
        csrs := csrs.(s := csrs.s.(interrupt := false, code := reason as nat, tval := tval));
        return SUPERVISOR;
      }
      assert prv == USER && Bit(csrs.medeleg, reason) && Bit(csrs.sedeleg, reason);
      csrs := csrs.(u := csrs.u.(interrupt := false, code := reason as nat, tval := tval));
      return USER;
    }

    method ComputePendingInterrupts() returns (e: Choice)
      ensures e == Selected(LinesOf(csrs), prv)
    {
      hide Selected;
      e := Choose(LinesOf(csrs), prv);
    }

    static method Choose(c: Lines, prv: nat) returns (e: Choice)
      ensures e == Selected(c, prv)
    {
      hide Bit, And, Not;
      var pending := And(c.mie, c.mip);
      if pending == 0 {
        return Nothing;
      }
      var mPending := And(pending, Not(c.mideleg));
      if mPending != 0 && (prv < MACHINE || (prv == MACHINE && c.mEnabled)) {
        return Take(MACHINE, mPending);
      }
      pending := And(pending, c.mideleg);
      var sPending := And(pending, Not(c.sideleg));
      if sPending != 0 && (prv < SUPERVISOR || (prv == SUPERVISOR && c.sEnabled)) {
        return Take(SUPERVISOR, sPending);
      }
      var uPending := And(pending, c.sideleg);
      if uPending != 0 && prv == USER && c.uEnabled {
        return Take(USER, uPending);
      }
      return Nothing;
    }

    // Answers false where the source throws.
    method PrepareInterrupt(e: Choice) returns (ok: bool)
      requires e.Take? && IsLevel(e.level)
      modifies this`csrs
      ensures ok == CauseOf(e.bits).Some?
      ensures Now() == if ok then PreparedInterrupt(old(Now()), e.level, CauseOf(e.bits).value) else old(Now())
    {
      hide Bit;
      var cause := CauseOf(e.bits);
      if cause.None? {
        return false;
      }
      var code := cause.value as nat;
      if e.level == MACHINE {
        csrs := csrs.(m := csrs.m.(code := code, interrupt := true));
      } else if e.level == SUPERVISOR {
        csrs := csrs.(s := csrs.s.(code := code, interrupt := true));
      } else {
        csrs := csrs.(u := csrs.u.(code := code, interrupt := true));
      }
      return true;
    }

    method SwitchToTrapHandler(target: nat)
      requires IsLevel(target)
      modifies this
      ensures Now() == Switched(old(Now()), target)
    {
      var pp := prv;
      prv := target;
      var c, st := csrs, csrs.status;
      if target == MACHINE {
        c := c.(m := c.m.(epc := pc), status := st.(mpie := st.mie, mie := false, mpp := pp % 4));
        pc := c.m.base;
        if c.m.interrupt && c.m.vectored {
          pc := (pc + 4 * c.m.code) % PC_RANGE;
        }
      } else if target == SUPERVISOR {
        assert prv == SUPERVISOR || prv == USER;
        c := c.(s := c.s.(epc := pc), status := st.(spie := st.sie, sie := false, spp := pp % 2));
        pc := c.s.base;
        if c.s.interrupt && c.s.vectored {
          pc := (pc + 4 * c.s.code) % PC_RANGE;
        }
      } else {
        assert prv == USER;
        c := c.(u := c.u.(epc := pc), status := st.(upie := st.uie, uie := false));
        pc := c.u.base;
        if c.u.interrupt && c.u.vectored {
          pc := (pc + 4 * c.u.code) % PC_RANGE;
        }
      }
      csrs := c;
    }

    method ReturnFromTrapHandler(mode: nat)
      requires IsLevel(mode)
      modifies this
      ensures Now() == Returned(old(Now()), mode)
    {
      var st := csrs.status;
      if mode == MACHINE {
        prv := st.mpp;
        csrs := csrs.(status := st.(mie := st.mpie, mpie := true, mpp := if csrs.userMode then USER else MACHINE));
        pc := csrs.m.epc;
      } else if mode == SUPERVISOR {
        prv := st.spp;
        csrs := csrs.(status := st.(sie := st.spie, spie := true, spp := if csrs.userMode then USER else SUPERVISOR));
        pc := csrs.s.epc;
      } else {
        prv := USER;
        csrs := csrs.(status := st.(uie := st.upie, upie := true));
        pc := csrs.u.epc;
      }
    }

    // The two ways run_step enters a handler.
    method TakeTrap(reason: bv5, tval: nat)
      requires IsLevel(prv)
      modifies this
      ensures Some(Entered(Now(), prv)) == Enter(old(Now()), Trap(reason, tval))
    {
      hide Bit, Switched, PreparedTrap;
      var target := PrepareTrap(reason, tval);
      SwitchToTrapHandler(target);
      SwitchedLevel(PreparedTrap(old(Now()), reason, tval), target);
    }

    method TakeInterrupt() returns (outcome: Outcome)
      requires IsLevel(prv)
      modifies this
      ensures Enter(old(Now()), Interrupt) == if outcome == Taken then Some(Entered(Now(), prv)) else None
      ensures outcome == NotTaken <==> Selected(LinesOf(old(csrs)), old(prv)) == Nothing
      ensures outcome != Taken ==> Now() == old(Now())
    {
      hide Bit, Switched, PreparedInterrupt, Selected, CauseOf;
      HighestOpenLevel(LinesOf(csrs), prv);
      var e := ComputePendingInterrupts();
      if e == Nothing {
        return NotTaken;
      }
      var ok := PrepareInterrupt(e);
      if !ok {
        return Threw;
      }
      SwitchToTrapHandler(e.level);
      SwitchedLevel(PreparedInterrupt(old(Now()), e.level, CauseOf(e.bits).value), e.level);
      outcome := Taken;
    }
  }

  lemma SwitchedLevel(x: Machine, level: nat)
    ensures Switched(x, level).prv == level
  {
  }

  /// One entry.

  datatype Cause = Trap(reason: bv5, tval: nat) | Interrupt

  datatype Entered = Entered(x: Machine, level: nat)

  // What run_step does on a trap or when it looks for interrupts; None when there is no interrupt to take.
  function Enter(x: Machine, cause: Cause): Option<Entered>
  {
    match cause
    case Trap(reason, tval) =>
      var t := TrapTarget(x.csrs, x.prv, reason);
      Some(Entered(Switched(PreparedTrap(x, reason, tval), t), t))
    case Interrupt =>
      match Selected(LinesOf(x.csrs), x.prv)
      case Nothing => None
      case Take(level, bits) =>
        if CauseOf(bits).None? then None
        else Some(Entered(Switched(PreparedInterrupt(x, level, CauseOf(bits).value), level), level))
  }

  // Where the handler is to resume: a trap repeats its instruction.
  function ResumePc(x: Machine, cause: Cause): nat { if cause.Trap? then x.lastPc else x.pc }

  function Enabled(c: Csrs, level: nat): bool
  {
    if level == MACHINE then c.status.mie else if level == SUPERVISOR then c.status.sie else c.status.uie
  }

  function WasEnabled(c: Csrs, level: nat): bool
  {
    if level == MACHINE then c.status.mpie else if level == SUPERVISOR then c.status.spie else c.status.upie
  }

  // The level an xRET at this level goes back to.
  function Previous(c: Csrs, level: nat): nat
  {
    if level == MACHINE then c.status.mpp else if level == SUPERVISOR then c.status.spp else USER
  }

  // The registers that belong to a level and that only an entry or a return at that level writes.
  predicate SameAt(c: Csrs, d: Csrs, level: nat)
  {
    && LevelOf(c, level).epc == LevelOf(d, level).epc
    && WasEnabled(c, level) == WasEnabled(d, level)
    && Previous(c, level) == Previous(d, level)
  }

  predicate SameEnables(c: Csrs, d: Csrs)
  {
    c.status.mie == d.status.mie && c.status.sie == d.status.sie && c.status.uie == d.status.uie
  }

  // Taking a machine into a handler of its own level or above saves what that level's return will need.
  lemma SwitchSaves(x: Machine, level: nat)
    requires IsLevel(x.prv) && IsLevel(level) && x.prv <= level
    ensures var y := Switched(x, level);
      && y.prv == level && Previous(y.csrs, level) == x.prv
      && WasEnabled(y.csrs, level) == Enabled(x.csrs, level) && !Enabled(y.csrs, level)
      && LevelOf(y.csrs, level).epc == x.pc
      && OthersUntouched(x, y, level) && y.csrs.userMode == x.csrs.userMode
  {
    hide Handler;
  }

  predicate OnlyCause(c: Csrs, d: Csrs)
  {
    && c.status == d.status && c.userMode == d.userMode
    && c.m.epc == d.m.epc && c.s.epc == d.s.epc && c.u.epc == d.u.epc
  }

  lemma OnlyCauseKeeps(c: Csrs, d: Csrs)
    requires OnlyCause(c, d)
    ensures c.userMode == d.userMode
    ensures forall l: nat :: IsLevel(l) ==> SameAt(c, d, l) && Enabled(c, l) == Enabled(d, l)
  {
  }

  predicate Saved(x: Machine, y: Machine, level: nat, resume: nat)
  {
    && IsLevel(level) && x.prv <= level && y.prv == level
    && Previous(y.csrs, level) == x.prv
    && WasEnabled(y.csrs, level) == Enabled(x.csrs, level) && !Enabled(y.csrs, level)
    && LevelOf(y.csrs, level).epc == resume
  }

  ghost predicate OthersUntouched(x: Machine, y: Machine, level: nat)
  {
    forall l: nat :: IsLevel(l) && l != level ==> SameAt(x.csrs, y.csrs, l) && Enabled(x.csrs, l) == Enabled(y.csrs, l)
  }

  lemma PreparedSwitch(x: Machine, p: Machine, level: nat)
    requires IsLevel(x.prv) && IsLevel(level) && x.prv <= level && p.prv == x.prv && OnlyCause(x.csrs, p.csrs)
    ensures Saved(x, Switched(p, level), level, p.pc) && OthersUntouched(x, Switched(p, level), level)
    ensures Switched(p, level).csrs.userMode == x.csrs.userMode
  {
    hide Switched, OnlyCause;
    OnlyCauseKeeps(x.csrs, p.csrs);
    SwitchSaves(p, level);
  }

  // The handler starts with its cause in place: a trap at the base address, an interrupt at its vector if there
  // are vectors.
  predicate StartsHandler(x: Machine, cause: Cause, y: Machine, level: nat)
  {
    var was, l := LevelOf(x.csrs, level), LevelOf(y.csrs, level);
    match cause
    case Trap(reason, tval) => !l.interrupt && l.code == reason as nat && l.tval == tval && y.pc == was.base
    case Interrupt =>
      && l.interrupt && l.tval == was.tval
      && Selected(LinesOf(x.csrs), x.prv).Take?
      && CauseOf(Selected(LinesOf(x.csrs), x.prv).bits).Some?
      && l.code == CauseOf(Selected(LinesOf(x.csrs), x.prv).bits).value as nat
      && y.pc == if was.vectored then (was.base + 4 * l.code) % PC_RANGE else was.base
  }

  lemma SwitchGoes(x: Machine, level: nat)
    requires IsLevel(level)
    ensures var y := Switched(x, level);
      && y.pc == Handler(LevelOf(x.csrs, level))
      && LevelOf(y.csrs, level) == LevelOf(x.csrs, level).(epc := x.pc)
  {
    hide Handler;
  }

  lemma EntryStartsHandler(x: Machine, cause: Cause)
    requires IsLevel(x.prv) && Enter(x, cause).Some?
    ensures var Entered(y, level) := Enter(x, cause).value; StartsHandler(x, cause, y, level)
  {
    hide Bit, CauseOf, Selected, Switched;
    match cause
    case Trap(reason, tval) =>
      SwitchGoes(PreparedTrap(x, reason, tval), TrapTarget(x.csrs, x.prv, reason));
    case Interrupt =>
      var Take(level, bits) := Selected(LinesOf(x.csrs), x.prv);
      HighestOpenLevel(LinesOf(x.csrs), x.prv);
      SwitchGoes(PreparedInterrupt(x, level, CauseOf(bits).value), level);
  }

  // A trap goes only as far down as both delegation registers and the current level allow.
  predicate Delegated(c: Csrs, prv: nat, reason: bv5, t: nat)
  {
    && prv <= t
    && (t < MACHINE <==> prv < MACHINE && Bit(c.medeleg, reason))
    && (t == USER <==> prv == USER && Bit(c.medeleg, reason) && Bit(c.sedeleg, reason))
  }

  lemma TargetIsDelegated(c: Csrs, prv: nat, reason: bv5)
    requires IsLevel(prv)
    ensures Delegated(c, prv, reason, TrapTarget(c, prv, reason))
  {
    hide Bit;
  }

  // An entry goes to the current level or above, so the one-bit spp keeps all of it; a trap goes no higher than its
  // delegation says. It starts the handler with its cause and saves everything its own return will need.
  lemma EntrySaves(x: Machine, cause: Cause)
    requires IsLevel(x.prv) && Enter(x, cause).Some?
    ensures var Entered(y, level) := Enter(x, cause).value;
      && Saved(x, y, level, ResumePc(x, cause)) && OthersUntouched(x, y, level)
      && y.csrs.userMode == x.csrs.userMode && StartsHandler(x, cause, y, level)
      && (cause.Trap? ==> Delegated(x.csrs, x.prv, cause.reason, level))
  {
    hide Bit, CauseOf, Selected, Switched, Saved, OthersUntouched, StartsHandler, Delegated;
    EntryStartsHandler(x, cause);
    match cause
    case Trap(reason, tval) =>
      TargetIsDelegated(x.csrs, x.prv, reason);
      PreparedSwitch(x, PreparedTrap(x, reason, tval), TrapTarget(x.csrs, x.prv, reason));
    case Interrupt =>
      HighestOpenLevel(LinesOf(x.csrs), x.prv);
      var Take(level, bits) := Selected(LinesOf(x.csrs), x.prv);
      PreparedSwitch(x, PreparedInterrupt(x, level, CauseOf(bits).value), level);
  }

  // What a return leaves as the previous level: the least there is.
  function Least(c: Csrs, level: nat): nat { if level == USER || c.userMode then USER else level }

  // A return pops its level, which it leaves with interrupts marked enabled and the least level as the previous one.
  lemma ReturnRestores(y: Machine, level: nat)
    requires IsLevel(level)
    ensures var z := Returned(y, level);
      && z.prv == Previous(y.csrs, level) && z.pc == LevelOf(y.csrs, level).epc
      && Enabled(z.csrs, level) == WasEnabled(y.csrs, level)
      && OthersUntouched(y, z, level)
      && LevelOf(z.csrs, level).epc == LevelOf(y.csrs, level).epc && z.csrs.userMode == y.csrs.userMode
      && WasEnabled(z.csrs, level) && Previous(z.csrs, level) == Least(z.csrs, level)
  {
  }

  // Until the handler enables them again, only interrupts for a higher level are taken.
  lemma EntryMasksItsLevel(x: Machine, cause: Cause)
    requires IsLevel(x.prv) && Enter(x, cause).Some?
    ensures var Entered(y, level) := Enter(x, cause).value;
      Selected(LinesOf(y.csrs), y.prv).Take? ==> Selected(LinesOf(y.csrs), y.prv).level > level
  {
    hide Enter, Selected, Bit;
    EntrySaves(x, cause);
    var y := Enter(x, cause).value.x;
    HighestOpenLevel(LinesOf(y.csrs), y.prv);
  }

  /// Nests.

  // Inside a handler: instructions that write no trap register (interrupt lines may change meanwhile), and
  // entries whose handlers end with the return of their own level.
  datatype Item = Move(pc: nat, lastPc: nat, mip: word) | Nest(cause: Cause, body: Script)

  datatype Script = Done | Then(item: Item, rest: Script)

  // Instructions of a handler that write no trap register; the interrupt lines may change.
  function Meanwhile(y: Machine, pc: nat, lastPc: nat, mip: word): Machine
  {
    Machine(pc, lastPc, y.prv, y.csrs.(mip := mip))
  }

  // None unless every entry exists and rises strictly.
  function RunItem(x: Machine, item: Item): Option<Machine>
    decreases item
  {
    match item
    case Move(pc, lastPc, mip) => Some(Meanwhile(x, pc, lastPc, mip))
    case Nest(cause, body) =>
      match Enter(x, cause)
      case None => None
      case Some(Entered(y, level)) =>
        if level <= x.prv then None
        else
          match RunScript(y, body)
          case None => None
          case Some(z) => Some(Returned(z, level))
  }

  function RunScript(x: Machine, script: Script): Option<Machine>
    decreases script
  {
    match script
    case Done => Some(x)
    case Then(item, rest) =>
      match RunItem(x, item)
      case None => None
      case Some(y) => RunScript(y, rest)
  }

  ghost predicate Kept(x: Machine, z: Machine)
  {
    && z.prv == x.prv && SameEnables(x.csrs, z.csrs)
    && forall l: nat :: IsLevel(l) && l <= x.prv ==> SameAt(x.csrs, z.csrs, l)
  }

  lemma KeptThrough(x: Machine, y: Machine, z: Machine)
    requires Kept(x, y) && Kept(y, z)
    ensures Kept(x, z)
  {
  }

  // An entry, a body that keeps the handler's state, and the return.
  lemma AroundTheBody(x: Machine, cause: Cause, z: Machine)
    requires IsLevel(x.prv) && Enter(x, cause).Some? && Enter(x, cause).value.level > x.prv
    requires Kept(Enter(x, cause).value.x, z)
    ensures Kept(x, Returned(z, Enter(x, cause).value.level))
    ensures Returned(z, Enter(x, cause).value.level).pc == ResumePc(x, cause)
  {
    hide Enter, Returned, LevelOf, ResumePc;
    EntrySaves(x, cause);
    var Entered(y, level) := Enter(x, cause).value;
    ReturnRestores(z, level);
    var r := Returned(z, level);
    assert SameAt(y.csrs, z.csrs, level);
    forall l: nat | IsLevel(l) && l <= x.prv ensures SameAt(x.csrs, r.csrs, l) {
      assert SameAt(x.csrs, y.csrs, l) && SameAt(y.csrs, z.csrs, l) && SameAt(z.csrs, r.csrs, l);
    }
    forall l: nat | IsLevel(l) ensures Enabled(x.csrs, l) == Enabled(r.csrs, l) {
      assert Enabled(y.csrs, l) == Enabled(z.csrs, l);
    }
    assert Enabled(x.csrs, MACHINE) == Enabled(r.csrs, MACHINE);
    assert Enabled(x.csrs, SUPERVISOR) == Enabled(r.csrs, SUPERVISOR);
    assert Enabled(x.csrs, USER) == Enabled(r.csrs, USER);
  }

  lemma {:induction false} ItemKeeps(x: Machine, item: Item)
    requires IsLevel(x.prv) && RunItem(x, item).Some?
    ensures Kept(x, RunItem(x, item).value)
    ensures item.Nest? ==> RunItem(x, item).value.pc == ResumePc(x, item.cause)
    decreases item
  {
    hide Enter, Returned, ResumePc;
    match item
    case Move(pc, lastPc, mip) =>
    case Nest(cause, body) =>
      EntrySaves(x, cause);
      ScriptKeeps(Enter(x, cause).value.x, body);
      AroundTheBody(x, cause, RunScript(Enter(x, cause).value.x, body).value);
  }

  lemma {:induction false} ScriptKeeps(x: Machine, script: Script)
    requires IsLevel(x.prv) && RunScript(x, script).Some?
    ensures Kept(x, RunScript(x, script).value)
    decreases script
  {
    hide Kept, RunItem;
    match script
    case Done => KeptSelf(x);
    case Then(item, rest) =>
      ItemKeeps(x, item);
      var y := RunItem(x, item).value;
      KeptLevel(x, y);
      ScriptKeeps(y, rest);
      KeptThrough(x, y, RunScript(y, rest).value);
  }

  lemma KeptSelf(x: Machine)
    ensures Kept(x, x)
  {
  }

  lemma KeptLevel(x: Machine, y: Machine)
    requires Kept(x, y)
    ensures y.prv == x.prv
  {
  }

  // A strictly rising nest, however deep and however often its handlers are themselves interrupted, gives back
  // the pc, the privilege and every enable bit.
  lemma NestRestores(x: Machine, cause: Cause, body: Script)
    requires IsLevel(x.prv) && RunItem(x, Nest(cause, body)).Some?
    ensures var z := RunItem(x, Nest(cause, body)).value;
      && z.pc == ResumePc(x, cause) && z.prv == x.prv
      && z.csrs.status.mie == x.csrs.status.mie
      && z.csrs.status.sie == x.csrs.status.sie
      && z.csrs.status.uie == x.csrs.status.uie
  {
    hide RunItem, ResumePc;
    ItemKeeps(x, Nest(cause, body));
  }

  // Two entries, the second inside the handler of the first after any instructions there, and their two returns: the
  // second never goes lower, and the outer return gives back the pc, the level and the enable bit that the first
  // entry saved if and only if the second went higher or happens to save what the first one did.
  lemma RestoresIffRising(x: Machine, outer: Cause, pc: nat, lastPc: nat, mip: word, inner: Cause)
    requires IsLevel(x.prv) && Enter(x, outer).Some?
    requires Enter(Meanwhile(Enter(x, outer).value.x, pc, lastPc, mip), inner).Some?
    ensures var Entered(y, level) := Enter(x, outer).value;
      var moved := Meanwhile(y, pc, lastPc, mip);
      var Entered(w, l) := Enter(moved, inner).value;
      var z := Returned(Returned(w, l), level);
      && level <= l
      && (z.pc == ResumePc(x, outer) <==> l > level || ResumePc(moved, inner) == ResumePc(x, outer))
      && (z.prv == x.prv <==> l > level || x.prv == Least(x.csrs, level))
      && (Enabled(z.csrs, level) == Enabled(x.csrs, level) <==> l > level || Enabled(x.csrs, level))
      && (l == level ==> z.pc == ResumePc(moved, inner))
  {
    var Entered(y, level) := Enter(x, outer).value;
    var moved := Meanwhile(y, pc, lastPc, mip);
    var Entered(w, l) := Enter(moved, inner).value;
    MeanwhileKeeps(y, pc, lastPc, mip);
    hide Enter, Returned, ResumePc, LevelOf, StartsHandler, Delegated, Meanwhile, Enabled, WasEnabled, Previous;
    EntrySaves(x, outer);
    EntrySaves(moved, inner);
    ReturnRestores(w, l);
    ReturnRestores(Returned(w, l), level);
  }

  lemma MeanwhileKeeps(y: Machine, pc: nat, lastPc: nat, mip: word)
    ensures var m := Meanwhile(y, pc, lastPc, mip);
      && m.prv == y.prv && m.csrs.userMode == y.csrs.userMode
      && forall l: nat ::
        SameAt(y.csrs, m.csrs, l) && Enabled(y.csrs, l) == Enabled(m.csrs, l)
        && LevelOf(y.csrs, l).epc == LevelOf(m.csrs, l).epc
  {
  }
}
