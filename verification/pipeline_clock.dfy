/// The scoreboard of timing.h against a clock that only moves forward: what it counts, and when starting
/// later can make a program finish earlier.

module PipelineClock {
  import opened Arith
  import opened PipelineTiming

  /// Absolute time: nothing is ever decremented or erased.

  datatype Expiring = Expiring(range: Range, until: int)

  datatype Clock = Clock(now: int, ready: map<nat, int>, multFree: int, divFree: int, stores: seq<Expiring>)

  const POWER_ON := Clock(0, map[], 0, 0, [])

  function ReadyAt(a: Clock, reg: nat): int { if reg in a.ready then a.ready[reg] else 0 }

  function AtLeast(a: Clock, t: int): Clock { a.(now := Max(a.now, t)) }

  predicate Collides(s: seq<Expiring>, now: int, r: Range)
  {
    exists k :: 0 <= k < |s| && s[k].until > now && s[k].range.Overlaps(r)
  }

  function Deliver(a: Clock, reg: nat, n: int): Clock { a.(ready := a.ready[reg := a.now + n]) }

  function ClockLoad(a: Clock, r: Range, rd: nat): Clock
  {
    if Collides(a.stores, a.now, r) then
      Deliver(a.(now := a.now + 1), rd, LOAD_LATENCY + if r.Size() < 4 then 1 else 0)
    else
      Deliver(a, rd, LOAD_LATENCY)
  }

  function ClockMult(a: Clock, rd: nat): Clock
  {
    var b := AtLeast(a, a.multFree);
    Deliver(b.(multFree := b.now + MULT_LATENCY), rd, MULT_LATENCY + 1)
  }

  function ClockDiv(a: Clock, rd: nat): Clock
  {
    var b := AtLeast(a, a.divFree);
    Deliver(b.(divFree := b.now + DIV_LATENCY), rd, DIV_LATENCY + 1)
  }

  function At(a: Clock, c: Call): Clock
  {
    match c
    case Read(r) => AtLeast(a, ReadyAt(a, r))
    case LoadTo(rd, addr, size) => ClockLoad(AtLeast(a, ReadyAt(a, rd)), RangeOf(addr, size), rd)
    case MultTo(rd) => ClockMult(AtLeast(a, ReadyAt(a, rd)), rd)
    case DivTo(rd) => ClockDiv(AtLeast(a, ReadyAt(a, rd)), rd)
    case CsrTo(rd) => Deliver(AtLeast(a, ReadyAt(a, rd)), rd, CSR_LATENCY)
    case StoreAt(addr, size) =>
      a.(stores := a.stores + [Expiring(RangeOf(addr, size), a.now + STORE_CYCLES + 1)])
    case Tick(n) => a.(now := a.now + n)
  }

  function AtAll(a: Clock, cs: seq<Call>): Clock
    decreases |cs|
  {
    if cs == [] then a else AtAll(At(a, cs[0]), cs[1..])
  }

  function DoAll(p: Pipe, cs: seq<Call>): Pipe
    decreases |cs|
  {
    if cs == [] then p else DoAll(Do(p, cs[0]), cs[1..])
  }

  /// The scoreboard is the clock seen from now.

  function Live(s: seq<Expiring>, now: int): seq<StoreReservation>
  {
    if s == [] then []
    else (if s[0].until > now then [StoreReservation(s[0].range, s[0].until - now)] else []) + Live(s[1..], now)
  }

  predicate UnitMatches(u: Unit, free: int, now: int)
  {
    if u.acquired then u.latency == free - now > 0 else free <= now
  }

  ghost predicate Matches(p: Pipe, a: Clock)
  {
    && Sound(p)
    && p.total == a.now >= 0
    && (forall r: nat :: Pending(p.regs, r) == Max(0, ReadyAt(a, r) - a.now))
    && UnitMatches(p.mult, a.multFree, a.now)
    && UnitMatches(p.div, a.divFree, a.now)
    && p.stores == Live(a.stores, a.now)
  }

  lemma LiveCons(s: seq<Expiring>, now: int)
    requires s != []
    ensures Live(s, now)
         == (if s[0].until > now then [StoreReservation(s[0].range, s[0].until - now)] else []) + Live(s[1..], now)
  {
  }

  lemma AdvanceCons(e: StoreReservation, rest: seq<StoreReservation>, n: int)
    ensures AdvanceStores([e] + rest, n)
         == (if e.latency - n > 0 then [e.(latency := e.latency - n)] else []) + AdvanceStores(rest, n)
  {
    assert ([e] + rest)[1..] == rest;
  }

  lemma {:induction false} LiveAdvances(s: seq<Expiring>, now: int, n: int)
    requires n > 0
    ensures AdvanceStores(Live(s, now), n) == Live(s, now + n)
  {
    if s != [] {
      hide Live, AdvanceStores;
      var rest := Live(s[1..], now);
      LiveAdvances(s[1..], now, n);
      LiveCons(s, now);
      LiveCons(s, now + n);
      if s[0].until > now {
        AdvanceCons(StoreReservation(s[0].range, s[0].until - now), rest, n);
      } else {
        assert [] + rest == rest;
      }
    }
  }

  lemma {:induction false} LiveAppends(s: seq<Expiring>, e: Expiring, now: int)
    requires e.until > now
    ensures Live(s + [e], now) == Live(s, now) + [StoreReservation(e.range, e.until - now)]
  {
    if s != [] {
      assert (s + [e])[1..] == s[1..] + [e];
      LiveAppends(s[1..], e, now);
    }
  }

  lemma {:induction false} LiveHits(s: seq<Expiring>, now: int, r: Range)
    ensures Hit(Live(s, now), r) == Collides(s, now, r)
  {
    if s != [] {
      LiveHits(s[1..], now, r);
      var head := if s[0].until > now then [StoreReservation(s[0].range, s[0].until - now)] else [];
      var rest := Live(s[1..], now);
      assert Live(s, now) == head + rest;
      HitConcat(head, rest, r);
      assert Hit(head, r) == (s[0].until > now && s[0].range.Overlaps(r)) by {
        assert head != [] ==> head[0].range == s[0].range;
      }
      CollidesCons(s, now, r);
    }
  }

  lemma CollidesCons(s: seq<Expiring>, now: int, r: Range)
    requires s != []
    ensures Collides(s, now, r) == ((s[0].until > now && s[0].range.Overlaps(r)) || Collides(s[1..], now, r))
  {
    if Collides(s[1..], now, r) {
      var k :| 0 <= k < |s[1..]| && s[1..][k].until > now && s[1..][k].range.Overlaps(r);
      assert s[k + 1] == s[1..][k];
    }
    if Collides(s, now, r) {
      var k :| 0 <= k < |s| && s[k].until > now && s[k].range.Overlaps(r);
      assert k > 0 ==> s[1..][k - 1] == s[k];
    }
  }

  lemma AdvanceMatches(p: Pipe, a: Clock, n: int)
    requires Matches(p, a) && n > 0
    ensures Matches(Advance(p, n), a.(now := a.now + n))
  {
    AdvanceIsSound(p, n);
    LiveAdvances(a.stores, a.now, n);
    forall r: nat
      ensures Pending(AdvanceRegs(p.regs, n), r) == Max(0, ReadyAt(a.(now := a.now + n), r) - (a.now + n))
    {
      PendingAdvances(p.regs, n, r);
    }
  }

  lemma AccessMatches(p: Pipe, a: Clock, reg: nat)
    requires Matches(p, a)
    ensures Matches(Access(p, reg), AtLeast(a, ReadyAt(a, reg)))
    ensures Pending(Access(p, reg).regs, reg) == 0
  {
    WriteLeavesNothingPending(p, reg);
    if Pending(p.regs, reg) > 0 {
      AdvanceMatches(p, a, Pending(p.regs, reg));
    }
  }

  lemma DeliverMatches(p: Pipe, a: Clock, reg: nat, n: int)
    requires Matches(p, a) && Pending(p.regs, reg) == 0 && n > 0
    ensures Matches(AddResult(p, reg, n), Deliver(a, reg, n))
  {
    var e := RegisterLatency(reg, n);
    PendingIsMembership(p.regs, reg);
    forall r: nat ensures Pending(p.regs + [e], r) == Max(0, ReadyAt(Deliver(a, reg, n), r) - a.now) {
      PendingAppends(p.regs, e, r);
    }
  }

  lemma MultMatches(p: Pipe, a: Clock, rd: nat)
    requires Matches(p, a) && Pending(p.regs, rd) == 0
    ensures Matches(Mult(p, rd), ClockMult(a, rd))
  {
    hide Live, AdvanceStores, AdvanceRegs;
    if p.mult.acquired {
      PendingAdvances(p.regs, p.mult.latency, rd);
      AdvanceMatches(p, a, p.mult.latency);
    }
    var b := AtLeast(a, a.multFree);
    DeliverMatches(Wait(p, p.mult).(mult := Unit(true, MULT_LATENCY)),
                   b.(multFree := b.now + MULT_LATENCY), rd, MULT_LATENCY + 1);
  }

  lemma DivMatches(p: Pipe, a: Clock, rd: nat)
    requires Matches(p, a) && Pending(p.regs, rd) == 0
    ensures Matches(Div(p, rd), ClockDiv(a, rd))
  {
    hide Live, AdvanceStores, AdvanceRegs;
    if p.div.acquired {
      PendingAdvances(p.regs, p.div.latency, rd);
      AdvanceMatches(p, a, p.div.latency);
    }
    var b := AtLeast(a, a.divFree);
    DeliverMatches(Wait(p, p.div).(div := Unit(true, DIV_LATENCY)),
                   b.(divFree := b.now + DIV_LATENCY), rd, DIV_LATENCY + 1);
  }

  lemma LoadMatches(p: Pipe, a: Clock, r: Range, rd: nat)
    requires Matches(p, a) && Pending(p.regs, rd) == 0
    ensures Matches(Load(p, r, rd), ClockLoad(a, r, rd))
  {
    hide Hit, Collides;
    LiveHits(a.stores, a.now, r);
    if Hit(p.stores, r) {
      AdvanceMatches(p, a, 1);
      PendingAdvances(p.regs, 1, rd);
      DeliverMatches(Advance(p, 1), a.(now := a.now + 1), rd, LOAD_LATENCY + if r.Size() < 4 then 1 else 0);
    } else {
      DeliverMatches(p, a, rd, LOAD_LATENCY);
    }
  }

  lemma StoreMatches(p: Pipe, a: Clock, r: Range)
    requires Matches(p, a)
    ensures Matches(Store(p, r), a.(stores := a.stores + [Expiring(r, a.now + STORE_CYCLES + 1)]))
  {
    LiveAppends(a.stores, Expiring(r, a.now + STORE_CYCLES + 1), a.now);
  }

  lemma CallMatches(p: Pipe, a: Clock, c: Call)
    requires Matches(p, a)
    ensures Matches(Do(p, c), At(a, c))
  {
    hide Matches, Load, ClockLoad, Mult, ClockMult, Div, ClockDiv, Access, Pending, Advance, Store;
    match c {
      case Read(r) => AccessMatches(p, a, r);
      case LoadTo(rd, addr, size) =>
        AccessMatches(p, a, rd);
        LoadMatches(Access(p, rd), AtLeast(a, ReadyAt(a, rd)), RangeOf(addr, size), rd);
      case MultTo(rd) =>
        AccessMatches(p, a, rd);
        MultMatches(Access(p, rd), AtLeast(a, ReadyAt(a, rd)), rd);
      case DivTo(rd) =>
        AccessMatches(p, a, rd);
        DivMatches(Access(p, rd), AtLeast(a, ReadyAt(a, rd)), rd);
      case CsrTo(rd) =>
        AccessMatches(p, a, rd);
        DeliverMatches(Access(p, rd), AtLeast(a, ReadyAt(a, rd)), rd, CSR_LATENCY);
      case StoreAt(addr, size) => StoreMatches(p, a, RangeOf(addr, size));
      case Tick(n) => AdvanceMatches(p, a, n);
    }
  }

  lemma {:induction false} AllMatch(p: Pipe, a: Clock, cs: seq<Call>)
    requires Matches(p, a)
    ensures Matches(DoAll(p, cs), AtAll(a, cs))
    decreases |cs|
  {
    hide Matches, Do, At;
    if cs != [] {
      CallMatches(p, a, cs[0]);
      AllMatch(Do(p, cs[0]), At(a, cs[0]), cs[1..]);
    }
  }

  // Whatever the simulator calls from power-on, the cycles counted are the clock's, and no assert fires.
  method CountCycles(cs: seq<Call>) returns (total: int)
    ensures total == AtAll(POWER_ON, cs).now
  {
    hide Do, At;
    var board := new Scoreboard();
    ghost var start := board.Now();
    var i := 0;
    assert cs[0..] == cs;
    while i < |cs|
      invariant 0 <= i <= |cs| && fresh(board) && Sound(board.Now())
      invariant DoAll(board.Now(), cs[i..]) == DoAll(start, cs)
    {
      ghost var was := board.Now();
      board.Execute(cs[i]);
      assert cs[i..][0] == cs[i] && cs[i..][1..] == cs[i + 1..];
      i := i + 1;
    }
    StartMatches(start);
    AllMatch(start, POWER_ON, cs);
    total := board.total;
  }

  lemma StartMatches(p: Pipe)
    requires p == Pipe([], Unit(false, 0), Unit(false, 0), [], 0)
    ensures Matches(p, POWER_ON)
  {
  }

  /// Advancing in two steps is advancing once, but for the latency left in a released unit, which nothing reads.

  predicate SameUnit(u: Unit, v: Unit) { u == v || (!u.acquired && !v.acquired) }

  predicate Same(p: Pipe, q: Pipe)
  {
    && p.regs == q.regs && p.stores == q.stores && p.total == q.total
    && SameUnit(p.mult, q.mult) && SameUnit(p.div, q.div)
  }

  lemma {:induction false} AdvanceRegsTwice(s: seq<RegisterLatency>, n: int, m: int)
    requires n > 0 && m > 0
    ensures AdvanceRegs(AdvanceRegs(s, n), m) == AdvanceRegs(s, n + m)
  {
    if s != [] {
      AdvanceRegsTwice(s[1..], n, m);
      var rest := AdvanceRegs(s[1..], n);
      if s[0].latency - n > 0 {
        var head := s[0].(latency := s[0].latency - n);
        assert AdvanceRegs(s, n) == [head] + rest;
        assert ([head] + rest)[0] == head && ([head] + rest)[1..] == rest;
      } else {
        assert AdvanceRegs(s, n) == rest;
      }
    }
  }

  lemma {:induction false} AdvanceStoresTwice(s: seq<StoreReservation>, n: int, m: int)
    requires n > 0 && m > 0
    ensures AdvanceStores(AdvanceStores(s, n), m) == AdvanceStores(s, n + m)
  {
    if s != [] {
      AdvanceStoresTwice(s[1..], n, m);
      var rest := AdvanceStores(s[1..], n);
      if s[0].latency - n > 0 {
        var head := s[0].(latency := s[0].latency - n);
        assert AdvanceStores(s, n) == [head] + rest;
        assert ([head] + rest)[0] == head && ([head] + rest)[1..] == rest;
      } else {
        assert AdvanceStores(s, n) == rest;
      }
    }
  }

  lemma AdvanceSplits(p: Pipe, n: int, m: int)
    requires n > 0 && m > 0
    ensures Same(Advance(Advance(p, n), m), Advance(p, n + m))
  {
    AdvanceRegsTwice(p.regs, n, m);
    AdvanceStoresTwice(p.stores, n, m);
  }

  lemma SameAdvance(p: Pipe, q: Pipe, n: int)
    requires Same(p, q)
    ensures Same(Advance(p, n), Advance(q, n))
  {
  }

  lemma SameAccess(p: Pipe, q: Pipe, reg: nat)
    requires Same(p, q)
    ensures Same(Access(p, reg), Access(q, reg))
  {
    SameAdvance(p, q, Pending(p.regs, reg));
  }

  lemma SameCall(p: Pipe, q: Pipe, c: Call)
    requires Same(p, q)
    ensures Same(Do(p, c), Do(q, c))
  {
    hide Advance, Pending, Hit;
    match c {
      case Read(r) => SameAccess(p, q, r);
      case LoadTo(rd, addr, size) =>
        SameAccess(p, q, rd);
        SameAdvance(Access(p, rd), Access(q, rd), 1);
      case MultTo(rd) =>
        SameAccess(p, q, rd);
        SameAdvance(Access(p, rd), Access(q, rd), Access(p, rd).mult.latency);
      case DivTo(rd) =>
        SameAccess(p, q, rd);
        SameAdvance(Access(p, rd), Access(q, rd), Access(p, rd).div.latency);
      case CsrTo(rd) => SameAccess(p, q, rd);
      case StoreAt(addr, size) =>
      case Tick(n) => SameAdvance(p, q, n);
    }
  }

  lemma {:induction false} SameRun(p: Pipe, q: Pipe, cs: seq<Call>)
    requires Same(p, q)
    ensures DoAll(p, cs).total == DoAll(q, cs).total
    decreases |cs|
  {
    hide Do;
    if cs != [] {
      SameCall(p, q, cs[0]);
      SameRun(Do(p, cs[0]), Do(q, cs[0]), cs[1..]);
    }
  }

  // So a stall may be taken in any number of pieces without changing any count after it.
  lemma SplitStall(p: Pipe, n: int, m: int, cs: seq<Call>)
    requires n > 0 && m > 0
    ensures DoAll(Advance(Advance(p, n), m), cs).total == DoAll(Advance(p, n + m), cs).total
  {
    AdvanceSplits(p, n, m);
    SameRun(Advance(Advance(p, n), m), Advance(p, n + m), cs);
  }

  /// When do two accesses overlap? When they share an address, unless the one that starts first ends at the
  /// top of the address space, where its end has wrapped to 0.

  predicate Touches(x: nat, m: nat, z: int) { x <= z < x + m }

  ghost predicate ShareAnAddress(x: nat, m: nat, y: nat, n: nat)
  {
    exists z: int :: Touches(x, m, z) && Touches(y, n, z)
  }

  lemma EndOf(x: nat, m: nat)
    requires 0 < m < WORD_RANGE && x + m <= WORD_RANGE
    ensures RangeOf(x, m) == Range(x, if x + m == WORD_RANGE then 0 else x + m) && RangeOf(x, m).Size() == m
  {
  }

  lemma OverlapIsSharing(x: nat, m: nat, y: nat, n: nat)
    requires 0 < m < WORD_RANGE && 0 < n < WORD_RANGE && x + m <= WORD_RANGE && y + n <= WORD_RANGE
    ensures RangeOf(x, m).Overlaps(RangeOf(y, n)) <==>
            ShareAnAddress(x, m, y, n) && (if y < x then y + n else x + m) < WORD_RANGE
    ensures RangeOf(x, m).Size() == m
  {
    var z := Max(x, y);
    assert ShareAnAddress(x, m, y, n) <==> Touches(x, m, z) && Touches(y, n, z);
    EndOf(x, m);
    EndOf(y, n);
  }

  /// Starting later.

  ghost predicate Later(a: Clock, b: Clock)
  {
    && a.now <= b.now
    && (forall r: nat :: ReadyAt(a, r) <= ReadyAt(b, r))
    && a.multFree <= b.multFree && a.divFree <= b.divFree
    && |a.stores| == |b.stores|
    && (forall k :: 0 <= k < |a.stores| ==>
          a.stores[k].range == b.stores[k].range && a.stores[k].until <= b.stores[k].until)
  }

  // A load can meet the store in the earlier run only.
  lemma EarlierHitWaits(a: Clock, b: Clock, r: Range)
    requires Later(a, b) && Collides(a.stores, a.now, r) && !Collides(b.stores, b.now, r)
    ensures a.now < b.now
  {
    var k :| 0 <= k < |a.stores| && a.stores[k].until > a.now && a.stores[k].range.Overlaps(r);
    assert b.stores[k].range.Overlaps(r);
  }

  predicate Anomalous(a: Clock, b: Clock, r: Range)
  {
    && r.Size() < 4 && b.now == a.now + 1
    && Collides(a.stores, a.now, r) && !Collides(b.stores, b.now, r)
  }

  lemma LaterDelivers(a: Clock, b: Clock, rd: nat, n: int, m: int)
    requires Later(a, b)
    ensures Later(Deliver(a, rd, n), Deliver(b, rd, m)) <==> a.now + n <= b.now + m
  {
    var x, y := Deliver(a, rd, n), Deliver(b, rd, m);
    assert ReadyAt(x, rd) == a.now + n && ReadyAt(y, rd) == b.now + m;
    assert forall r: nat :: r != rd ==> ReadyAt(x, r) == ReadyAt(a, r) && ReadyAt(y, r) == ReadyAt(b, r);
  }

  lemma LaterMoves(a: Clock, b: Clock, s: int, t: int)
    requires Later(a, b) && s <= t
    ensures Later(a.(now := s), b.(now := t))
  {
    assert forall r: nat :: ReadyAt(a.(now := s), r) == ReadyAt(a, r) && ReadyAt(b.(now := t), r) == ReadyAt(b, r);
  }

  lemma LaterLoads(a: Clock, b: Clock, r: Range, rd: nat)
    requires Later(a, b)
    ensures Later(ClockLoad(a, r, rd), ClockLoad(b, r, rd)) <==> !Anomalous(a, b, r)
  {
    NowIsLater(a, b);
    hide Collides, Later, Deliver;
    var extra := if r.Size() < 4 then 1 else 0;
    var hitA, hitB := Collides(a.stores, a.now, r), Collides(b.stores, b.now, r);
    if hitA && !hitB {
      EarlierHitWaits(a, b, r);
    }
    var a' := if hitA then a.(now := a.now + 1) else a;
    var b' := if hitB then b.(now := b.now + 1) else b;
    LaterMoves(a, b, a'.now, b'.now);
    LaterDelivers(a', b', rd, LOAD_LATENCY + if hitA then extra else 0, LOAD_LATENCY + if hitB then extra else 0);
  }

  predicate AnomalousCall(a: Clock, b: Clock, c: Call)
  {
    c.LoadTo? &&
    Anomalous(AtLeast(a, ReadyAt(a, c.rd)), AtLeast(b, ReadyAt(b, c.rd)), RangeOf(c.addr, c.size))
  }

  lemma LaterWaits(a: Clock, b: Clock, s: int, t: int)
    requires Later(a, b) && s <= t
    ensures Later(AtLeast(a, s), AtLeast(b, t))
  {
    assert forall r: nat :: ReadyAt(AtLeast(a, s), r) == ReadyAt(a, r) && ReadyAt(AtLeast(b, t), r) == ReadyAt(b, r);
  }

  // One call keeps the order exactly when it is not a sub-word load that just misses the store.
  lemma LaterStays(a: Clock, b: Clock, c: Call)
    requires Later(a, b)
    ensures Later(At(a, c), At(b, c)) <==> !AnomalousCall(a, b, c)
  {
    hide Anomalous, ClockLoad;
    match c {
      case Read(r) => LaterWaits(a, b, ReadyAt(a, r), ReadyAt(b, r));
      case LoadTo(rd, addr, size) =>
        LaterWaits(a, b, ReadyAt(a, rd), ReadyAt(b, rd));
        LaterLoads(AtLeast(a, ReadyAt(a, rd)), AtLeast(b, ReadyAt(b, rd)), RangeOf(addr, size), rd);
      case MultTo(rd) =>
        LaterWaits(a, b, ReadyAt(a, rd), ReadyAt(b, rd));
        LaterMult(AtLeast(a, ReadyAt(a, rd)), AtLeast(b, ReadyAt(b, rd)), rd);
      case DivTo(rd) =>
        LaterWaits(a, b, ReadyAt(a, rd), ReadyAt(b, rd));
        LaterDiv(AtLeast(a, ReadyAt(a, rd)), AtLeast(b, ReadyAt(b, rd)), rd);
      case CsrTo(rd) =>
        LaterWaits(a, b, ReadyAt(a, rd), ReadyAt(b, rd));
        LaterDelivers(AtLeast(a, ReadyAt(a, rd)), AtLeast(b, ReadyAt(b, rd)), rd, CSR_LATENCY, CSR_LATENCY);
      case StoreAt(addr, size) =>
        assert forall r: nat :: ReadyAt(At(a, c), r) == ReadyAt(a, r) && ReadyAt(At(b, c), r) == ReadyAt(b, r);
      case Tick(n) =>
        assert forall r: nat :: ReadyAt(At(a, c), r) == ReadyAt(a, r) && ReadyAt(At(b, c), r) == ReadyAt(b, r);
    }
  }

  lemma LaterMult(a: Clock, b: Clock, rd: nat)
    requires Later(a, b)
    ensures Later(ClockMult(a, rd), ClockMult(b, rd))
  {
    LaterWaits(a, b, a.multFree, b.multFree);
    var x, y := AtLeast(a, a.multFree), AtLeast(b, b.multFree);
    var x', y' := x.(multFree := x.now + MULT_LATENCY), y.(multFree := y.now + MULT_LATENCY);
    assert forall r: nat :: ReadyAt(x', r) == ReadyAt(x, r) && ReadyAt(y', r) == ReadyAt(y, r);
    LaterDelivers(x', y', rd, MULT_LATENCY + 1, MULT_LATENCY + 1);
  }

  lemma LaterDiv(a: Clock, b: Clock, rd: nat)
    requires Later(a, b)
    ensures Later(ClockDiv(a, rd), ClockDiv(b, rd))
  {
    LaterWaits(a, b, a.divFree, b.divFree);
    var x, y := AtLeast(a, a.divFree), AtLeast(b, b.divFree);
    var x', y' := x.(divFree := x.now + DIV_LATENCY), y.(divFree := y.now + DIV_LATENCY);
    assert forall r: nat :: ReadyAt(x', r) == ReadyAt(x, r) && ReadyAt(y', r) == ReadyAt(y, r);
    LaterDelivers(x', y', rd, DIV_LATENCY + 1, DIV_LATENCY + 1);
  }

  /// Over whole runs: exactly when can a later start finish earlier?

  // No call of the program is anomalous where the two runs reach it.
  ghost predicate NoAnomaly(a: Clock, b: Clock, cs: seq<Call>)
  {
    forall k :: 0 <= k < |cs| ==> !AnomalousCall(AtAll(a, cs[..k]), AtAll(b, cs[..k]), cs[k])
  }

  // When an instruction that reads reg finishes.
  function ReadTime(a: Clock, reg: nat): int { At(a, Read(reg)).now }

  // Wherever the program is cut, no instruction that reads a register finishes earlier in the later run.
  ghost predicate NeverEarlier(a: Clock, b: Clock, cs: seq<Call>)
  {
    forall k, r: nat :: 0 <= k <= |cs| ==> ReadTime(AtAll(a, cs[..k]), r) <= ReadTime(AtAll(b, cs[..k]), r)
  }

  lemma NoAnomalyBefore(a: Clock, b: Clock, cs: seq<Call>, n: nat)
    requires NoAnomaly(a, b, cs) && n <= |cs|
    ensures NoAnomaly(a, b, cs[..n])
  {
    hide AnomalousCall, AtAll;
    forall k | 0 <= k < n
      ensures !AnomalousCall(AtAll(a, cs[..n][..k]), AtAll(b, cs[..n][..k]), cs[..n][k])
    {
      assert cs[..n][..k] == cs[..k];
    }
  }

  lemma {:induction false} RunStaysLater(a: Clock, b: Clock, cs: seq<Call>)
    requires Later(a, b) && NoAnomaly(a, b, cs)
    ensures Later(AtAll(a, cs), AtAll(b, cs))
    decreases |cs|
  {
    hide At, Later, AnomalousCall;
    if cs != [] {
      var n := |cs| - 1;
      NoAnomalyBefore(a, b, cs, n);
      RunStaysLater(a, b, cs[..n]);
      LaterStays(AtAll(a, cs[..n]), AtAll(b, cs[..n]), cs[n]);
      AtLast(a, cs);
      AtLast(b, cs);
    }
  }

  lemma LaterReads(a: Clock, b: Clock, reg: nat)
    requires Later(a, b)
    ensures ReadTime(a, reg) <= ReadTime(b, reg)
  {
  }

  // Every anomalous call lets the next reader of its register finish earlier in the later run.
  lemma AnomalyShows(a: Clock, b: Clock, c: Call)
    requires Later(a, b) && AnomalousCall(a, b, c)
    ensures c.LoadTo? && ReadTime(At(a, c), c.rd) > ReadTime(At(b, c), c.rd)
  {
    hide Collides, RangeOf;
  }

  lemma LastIsSeen(a: Clock, b: Clock, cs: seq<Call>)
    requires cs != [] && Later(AtAll(a, cs[..|cs| - 1]), AtAll(b, cs[..|cs| - 1]))
    requires forall r: nat :: ReadTime(AtAll(a, cs), r) <= ReadTime(AtAll(b, cs), r)
    ensures !AnomalousCall(AtAll(a, cs[..|cs| - 1]), AtAll(b, cs[..|cs| - 1]), cs[|cs| - 1])
  {
    hide At, Later, AnomalousCall, ReadTime;
    var n := |cs| - 1;
    AtLast(a, cs);
    AtLast(b, cs);
    if AnomalousCall(AtAll(a, cs[..n]), AtAll(b, cs[..n]), cs[n]) {
      AnomalyShows(AtAll(a, cs[..n]), AtAll(b, cs[..n]), cs[n]);
    }
  }

  lemma {:induction false} AnomalyIsSeen(a: Clock, b: Clock, cs: seq<Call>)
    requires Later(a, b) && NeverEarlier(a, b, cs)
    ensures NoAnomaly(a, b, cs)
    decreases |cs|
  {
    hide At, Later, AnomalousCall, ReadTime;
    if cs != [] {
      var n := |cs| - 1;
      forall k, r: nat | 0 <= k <= n
        ensures ReadTime(AtAll(a, cs[..n][..k]), r) <= ReadTime(AtAll(b, cs[..n][..k]), r)
      {
        assert cs[..n][..k] == cs[..k];
      }
      AnomalyIsSeen(a, b, cs[..n]);
      RunStaysLater(a, b, cs[..n]);
      forall k | 0 <= k < |cs| ensures !AnomalousCall(AtAll(a, cs[..k]), AtAll(b, cs[..k]), cs[k]) {
        if k < n {
          assert cs[..n][..k] == cs[..k] && cs[..n][k] == cs[k];
        } else {
          assert cs[..|cs|] == cs;
          LastIsSeen(a, b, cs);
        }
      }
    }
  }

  // A later start never makes any reader finish earlier if and only if the run meets no sub-word load that hits
  // a store in the earlier run only, one cycle before the later run reaches it.
  lemma NeverEarlierExactly(a: Clock, b: Clock, cs: seq<Call>)
    requires Later(a, b)
    ensures NeverEarlier(a, b, cs) <==> NoAnomaly(a, b, cs)
  {
    hide ReadTime, Later, AtAll, NoAnomaly, NeverEarlier;
    if NoAnomaly(a, b, cs) {
      EarlierNowhere(a, b, cs);
    }
    if NeverEarlier(a, b, cs) {
      AnomalyIsSeen(a, b, cs);
    }
  }

  lemma EarlierNowhere(a: Clock, b: Clock, cs: seq<Call>)
    requires Later(a, b) && NoAnomaly(a, b, cs)
    ensures NeverEarlier(a, b, cs)
  {
    hide ReadTime, Later, AtAll, NoAnomaly;
    forall k, r: nat | 0 <= k <= |cs| ensures ReadTime(AtAll(a, cs[..k]), r) <= ReadTime(AtAll(b, cs[..k]), r) {
      NoAnomalyBefore(a, b, cs, k);
      RunStaysLater(a, b, cs[..k]);
      LaterReads(AtAll(a, cs[..k]), AtAll(b, cs[..k]), r);
    }
  }

  predicate WordLoads(cs: seq<Call>)
  {
    forall k :: 0 <= k < |cs| && cs[k].LoadTo? ==> cs[k].size == 4
  }

  // A program of word loads never finishes earlier for having started later; every prefix of it is such a
  // program, so no instruction in it does.
  lemma NoWordAnomaly(a: Clock, b: Clock, cs: seq<Call>)
    requires Later(a, b) && WordLoads(cs)
    ensures Later(AtAll(a, cs), AtAll(b, cs)) && AtAll(a, cs).now <= AtAll(b, cs).now
    ensures NeverEarlier(a, b, cs)
  {
    hide Later, NeverEarlier, AtAll, Collides;
    assert NoAnomaly(a, b, cs);
    hide NoAnomaly;
    RunStaysLater(a, b, cs);
    NowIsLater(AtAll(a, cs), AtAll(b, cs));
    EarlierNowhere(a, b, cs);
  }

  lemma NowIsLater(a: Clock, b: Clock)
    requires Later(a, b)
    ensures a.now <= b.now
  {
  }

  // A byte load does finish earlier when the run starts later: register 7 ready at 2 instead of 0.
  lemma SubWordAnomaly()
    ensures
      var cs := [StoreAt(0, 4), Tick(1), Read(7), LoadTo(5, 0, 1), Read(5)];
      var late := POWER_ON.(ready := map[7 := 2]);
      Later(POWER_ON, late) && AtAll(POWER_ON, cs).now == 5 && AtAll(late, cs).now == 4
  {
    var late := POWER_ON.(ready := map[7 := 2]);
    var r := RangeOf(0, 4);
    var s := [Expiring(r, 2)];
    var cs := [StoreAt(0, 4), Tick(1), Read(7), LoadTo(5, 0, 1), Read(5)];
    assert s[0].range.Overlaps(RangeOf(0, 1));
    assert POWER_ON.stores + s == s;
    assert Collides(s, 1, RangeOf(0, 1)) && !Collides(s, 2, RangeOf(0, 1));
    assert cs[1..] == [Tick(1), Read(7), LoadTo(5, 0, 1), Read(5)];
    assert cs[1..][1..] == [Read(7), LoadTo(5, 0, 1), Read(5)];
    assert cs[1..][1..][1..] == [LoadTo(5, 0, 1), Read(5)];
    assert cs[1..][1..][1..][1..] == [Read(5)];
    AtFive(POWER_ON, cs);
    AtFive(late, cs);
  }

  lemma AtFive(a: Clock, cs: seq<Call>)
    requires |cs| == 5
    ensures AtAll(a, cs) == At(At(At(At(At(a, cs[0]), cs[1]), cs[2]), cs[3]), cs[4])
  {
    hide At;
    AtLast(a, cs);
    AtLast(a, cs[..4]);
    AtLast(a, cs[..3]);
    AtLast(a, cs[..2]);
    AtLast(a, cs[..1]);
    assert cs[..4][..3] == cs[..3] && cs[..3][..2] == cs[..2] && cs[..2][..1] == cs[..1] && cs[..1][..0] == [];
  }

  lemma {:induction false} AtLast(a: Clock, cs: seq<Call>)
    requires cs != []
    ensures AtAll(a, cs) == At(AtAll(a, cs[..|cs| - 1]), cs[|cs| - 1])
    decreases |cs|
  {
    hide At;
    if |cs| > 1 {
      AtLast(At(a, cs[0]), cs[1..]);
      assert cs[1..][..|cs| - 2] == cs[..|cs| - 1][1..];
    }
  }
}
