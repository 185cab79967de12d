/// The coprocessor and the real transmitter wired together as in uart_top.v: the valid/busy handshake
/// turns every byte the coprocessor presents into exactly one frame.

module Handshake {
  import opened Arith
  import opened BitValues
  import opened Words
  import opened NiceCore
  import opened UartBaud
  import opened ReplySafety
  import Tx = UartTx
  import opened NiceProtocol
  import opened Link
  import SboxRom

  // The bits of a byte as r_data_tx holds them, least significant first.
  function Bits(b: byte): (w: seq<bool>)
    ensures |w| == 8
  {
    [b & 1 == 1, (b >> 1) & 1 == 1, (b >> 2) & 1 == 1, (b >> 3) & 1 == 1,
     (b >> 4) & 1 == 1, (b >> 5) & 1 == 1, (b >> 6) & 1 == 1, (b >> 7) & 1 == 1]
  }

  lemma BitsOfByte(b: byte)
    ensures Bits(b) == [ByteBit(b, 0), ByteBit(b, 1), ByteBit(b, 2), ByteBit(b, 3),
                        ByteBit(b, 4), ByteBit(b, 5), ByteBit(b, 6), ByteBit(b, 7)]
  {
  }

  // Element k is the binary digit k of the byte: the least significant comes first.
  lemma BitsAreDigits(b: byte, k: nat)
    requires k < 8
    ensures Bits(b)[k] == DigitOf(b as nat, k)
  {
    hide DigitOf, Bits, ByteBit;
    BitsOfByte(b);
    ByteDigit(b, k);
    if k < 4 {
      assert k == 0 || k == 1 || k == 2 || k == 3;
    } else {
      assert k == 4 || k == 5 || k == 6 || k == 7;
    }
  }

  // Different bytes have different bits.
  lemma BitsInjective(a: byte, b: byte)
    requires Bits(a) == Bits(b)
    ensures a == b
  {
    assert Bits(a)[0] == Bits(b)[0] && Bits(a)[1] == Bits(b)[1] && Bits(a)[2] == Bits(b)[2] && Bits(a)[3] == Bits(b)[3];
    assert Bits(a)[4] == Bits(b)[4] && Bits(a)[5] == Bits(b)[5] && Bits(a)[6] == Bits(b)[6] && Bits(a)[7] == Bits(b)[7];
  }

  datatype System = System(core: Regs, tx: Tx.Regs)

  // What the receiver side delivers at one clock.
  datatype Arrival = Arrival(rx: byte, rxValid: bool)

  function TxInput(c: Regs): Tx.Input { Tx.Input(c.out.valid, Bits(c.out.data)) }

  function CoreInput(y: System, a: Arrival): Input
  {
    Wired(y.core, Drive(a.rx, a.rxValid, y.tx.busy))
  }

  // One clock edge of both.
  function Step(p: Params, y: System, a: Arrival): (z: System)
    requires Valid(y.core)
    ensures Valid(z.core)
  {
    System(Next(y.core, CoreInput(y, a)), Tx.Next(p, y.tx, TxInput(y.core)))
  }

  /// Where a presented byte is.
  datatype Stage =
    | Rest
    | Offered(b: byte)                     // valid, not yet latched
    | Latched(b: byte)                     // valid and latched, i_state_0 high
    | OnLine(b: byte, q: nat, r: nat)      // at position (q, r) of its frame
    | Stopped(b: byte)                     // stop bit begun
    | Draining(b: byte)                    // idle again, i_state_0 about to fall

  ghost predicate At(p: Params, y: System, g: Stage)
    requires Wide(p)
  {
    && Valid(y.core) && y.core.out.valid == y.core.out.count == (g.Offered? || g.Latched?)
    && (g.Offered? || g.Latched? ==> y.core.out.data == g.b)
    && y.tx.busy == (!g.Rest? && !g.Offered?)
    && match g
       case Rest => Tx.AtRest(y.tx)
       case Offered(_) => Tx.AtRest(y.tx)
       case Latched(b) =>
         && y.tx.cur == UartBaud.Phase.Idle && y.tx.baudValid && y.tx.baudCnt == 0
         && y.tx.txCnt == 0 && y.tx.line && y.tx.data == Bits(b)
       case OnLine(b, q, r) =>
         Position(p, q, r) && (q == 9 ==> r <= p.cycle / 2) && Tx.Sending(p, y.tx, Bits(b), true, q, r)
       case Stopped(_) => y.tx.cur == End && !y.tx.baudValid && y.tx.line && !y.tx.pulse
       case Draining(_) => Tx.AtRest(y.tx)
  }

  // The stage after one clock.
  function NextStage(p: Params, g: Stage, presented: Option<byte>): Stage
  {
    match g
    case Rest => if presented.Some? then Offered(presented.value) else Rest
    case Offered(b) => Latched(b)
    case Latched(b) => OnLine(b, 0, 1)
    case OnLine(b, q, r) =>
      if q == 9 && r == p.cycle / 2 then Stopped(b)
      else if r < p.cycle then OnLine(b, q, r + 1)
      else OnLine(b, q + 1, 1)
    case Stopped(b) => Draining(b)
    case Draining(_) => Rest
  }

  lemma TransmitterStep(p: Params, t: Tx.Regs, i: Tx.Input, b: byte, q: nat, r: nat)
    requires Wide(p) && Position(p, q, r) && (q == 9 ==> r <= p.cycle / 2)
    requires Tx.Sending(p, t, Bits(b), true, q, r)
    ensures var n := Tx.Next(p, t, i);
      if q == 9 && r == p.cycle / 2 then n.cur == End && !n.baudValid && n.line && !n.pulse && n.busy
      else if r < p.cycle then Tx.Sending(p, n, Bits(b), true, q, r + 1)
      else Tx.Sending(p, n, Bits(b), true, q + 1, 1)
  {
    hide Bits;
    if q == 9 && r == p.cycle / 2 {
      DividerAdvances(p, q, r);
    } else {
      Tx.SendingStep(p, t, i, Bits(b), true, q, r);
    }
  }

  // Every clock follows the stages, whatever arrives.
  lemma StageStep(p: Params, y: System, g: Stage, a: Arrival)
    requires Wide(p) && At(p, y, g)
    ensures At(p, Step(p, y, a), NextStage(p, g, Raised(y.core, CoreInput(y, a))))
    ensures !g.Rest? ==> Raised(y.core, CoreInput(y, a)) == None
  {
    hide Bits, Next, SboxRom.DataOut, Raised;
    var i := CoreInput(y, a);
    CoreOutStep(y.core, i);
    if g.OnLine? {
      hide Tx.Next, Tx.Sending;
      OnLineKeepsBusy(p, y.tx, Bits(g.b), g.q, g.r);
      TransmitterStep(p, y.tx, TxInput(y.core), g.b, g.q, g.r);
      var n := Tx.Next(p, y.tx, TxInput(y.core));
      if !(g.q == 9 && g.r == p.cycle / 2) {
        OnLineKeepsBusy(p, n, Bits(g.b), if g.r < p.cycle then g.q else g.q + 1, if g.r < p.cycle then g.r + 1 else 1);
      }
    } else {
      assert Bits(y.core.out.data)[0..] + Zeros(0) == Bits(y.core.out.data);
    }
  }

  lemma OnLineKeepsBusy(p: Params, t: Tx.Regs, w: seq<bool>, q: nat, r: nat)
    requires Wide(p) && |w| == 8 && Position(p, q, r) && Tx.Sending(p, t, w, true, q, r)
    ensures t.busy
  {
  }

  /// Runs from reset.

  const TX_RESET := Tx.Regs(UartBaud.Phase.Idle, false, 0, false, 0, Zeros(8), true, false)

  function Run(p: Params, arrivals: seq<Arrival>): (y: System)
    ensures Valid(y.core)
  {
    if arrivals == [] then System(RESET, TX_RESET)
    else Step(p, Run(p, arrivals[..|arrivals| - 1]), arrivals[|arrivals| - 1])
  }

  function RaisedBy(y: System, a: Arrival): seq<byte>
  {
    match Raised(y.core, CoreInput(y, a))
    case Some(b) => [b]
    case None => []
  }

  // The byte of every rise of o_data_valid.
  function Rises(p: Params, arrivals: seq<Arrival>): seq<byte>
  {
    if arrivals == [] then []
    else
      var before := arrivals[..|arrivals| - 1];
      Rises(p, before) + RaisedBy(Run(p, before), arrivals[|arrivals| - 1])
  }

  function ShiftedBy(t: Tx.Regs): seq<bool>
  {
    if t.cur == Data && t.pulse && t.data != [] then [t.data[0]] else []
  }

  // Every data bit put on the line.
  function OnWire(p: Params, arrivals: seq<Arrival>): seq<bool>
  {
    if arrivals == [] then []
    else
      var before := arrivals[..|arrivals| - 1];
      OnWire(p, before) + ShiftedBy(Run(p, before).tx)
  }

  // Bytes as the bits of their frames.
  function Serial(bs: seq<byte>): (w: seq<bool>)
    ensures |w| == 8 * |bs|
  {
    if bs == [] then [] else Serial(bs[..|bs| - 1]) + Bits(bs[|bs| - 1])
  }

  ghost function StageAfter(p: Params, arrivals: seq<Arrival>): Stage
  {
    if arrivals == [] then Rest
    else
      var y := Run(p, arrivals[..|arrivals| - 1]);
      NextStage(p, StageAfter(p, arrivals[..|arrivals| - 1]), Raised(y.core, CoreInput(y, arrivals[|arrivals| - 1])))
  }

  // The bits on the wire are those of all presented bytes but the last one in flight, of which a
  // prefix has been sent.
  ghost predicate Accounted(p: Params, g: Stage, rises: seq<byte>, wire: seq<bool>)
  {
    match g
    case Offered(b) => InFlight(rises, wire, b, 0)
    case Latched(b) => InFlight(rises, wire, b, 0)
    case OnLine(b, q, r) => BitsAt(p, q, r) <= 8 && InFlight(rises, wire, b, BitsAt(p, q, r))
    case _ => wire == Serial(rises)
  }

  ghost predicate InFlight(rises: seq<byte>, wire: seq<bool>, b: byte, k: nat)
  {
    k <= 8 && rises != [] && rises[|rises| - 1] == b && wire == Serial(rises[..|rises| - 1]) + Bits(b)[..k]
  }

  lemma InFlightBegins(rises: seq<byte>, wire: seq<bool>, b: byte)
    requires wire == Serial(rises)
    ensures InFlight(rises + [b], wire, b, 0)
  {
    hide Bits;
    assert (rises + [b])[..|rises|] == rises;
    assert Bits(b)[..0] == [];
  }

  lemma InFlightGrows(rises: seq<byte>, wire: seq<bool>, b: byte, k: nat)
    requires InFlight(rises, wire, b, k) && k < 8
    ensures InFlight(rises, wire + [Bits(b)[k]], b, k + 1)
  {
    hide Bits;
    assert Bits(b)[..k] + [Bits(b)[k]] == Bits(b)[..k + 1];
  }

  lemma InFlightEnds(rises: seq<byte>, wire: seq<bool>, b: byte)
    requires InFlight(rises, wire, b, 8)
    ensures wire == Serial(rises)
  {
    hide Bits;
    assert Bits(b)[..8] == Bits(b);
  }

  // A stage puts a bit on the line in the middle of each data period, and nothing otherwise.
  function BitOf(p: Params, g: Stage): seq<bool>
  {
    if g.OnLine? && 1 <= g.q <= 8 && g.r == p.cycle / 2 then [Bits(g.b)[g.q - 1]] else []
  }

  lemma ShiftsBit(p: Params, y: System, g: Stage)
    requires Wide(p) && At(p, y, g)
    ensures ShiftedBy(y.tx) == BitOf(p, g)
    ensures g.OnLine? && BitOf(p, g) != [] ==> BitsAt(p, g.q, g.r) == g.q - 1
  {
    hide Bits;
    if g.OnLine? {
      BitsAdvance(p, g.q, g.r);
    }
  }

  lemma NextBits(p: Params, b: byte, q: nat, r: nat)
    requires Wide(p) && Position(p, q, r) && (q == 9 ==> r <= p.cycle / 2)
    ensures var g' := NextStage(p, OnLine(b, q, r), None);
      var k := BitsAt(p, q, r) + |BitOf(p, OnLine(b, q, r))|;
      k <= 8 && (if g'.OnLine? then BitsAt(p, g'.q, g'.r) == k else k == 8)
  {
    hide Bits;
    BitsAdvance(p, q, r);
  }

  lemma OnLineAccounted(p: Params, b: byte, q: nat, r: nat, rises: seq<byte>, wire: seq<bool>)
    requires Wide(p) && Position(p, q, r) && (q == 9 ==> r <= p.cycle / 2)
    requires Accounted(p, OnLine(b, q, r), rises, wire)
    requires BitOf(p, OnLine(b, q, r)) != [] ==> BitsAt(p, q, r) == q - 1
    ensures Accounted(p, NextStage(p, OnLine(b, q, r), None), rises, wire + BitOf(p, OnLine(b, q, r)))
  {
    hide Bits, Serial, InFlight, BitsAt;
    NextBits(p, b, q, r);
    if BitOf(p, OnLine(b, q, r)) == [] {
      assert wire + [] == wire;
    } else {
      InFlightGrows(rises, wire, b, q - 1);
    }
    if !NextStage(p, OnLine(b, q, r), None).OnLine? {
      InFlightEnds(rises, wire, b);
    }
  }

  lemma OffLineAccounted(p: Params, g: Stage, presented: Option<byte>, rises: seq<byte>, wire: seq<bool>)
    requires !g.OnLine? && Accounted(p, g, rises, wire) && (presented.Some? ==> g.Rest?)
    ensures Accounted(p, NextStage(p, g, presented),
                      rises + if presented.Some? then [presented.value] else [], wire)
  {
    hide Bits, Serial, InFlight;
    assert rises + [] == rises;
    if presented.Some? {
      InFlightBegins(rises, wire, presented.value);
    }
  }

  lemma AccountedStep(p: Params, y: System, g: Stage, a: Arrival, rises: seq<byte>, wire: seq<bool>)
    requires Wide(p) && At(p, y, g) && Accounted(p, g, rises, wire)
    ensures Accounted(p, NextStage(p, g, Raised(y.core, CoreInput(y, a))),
                      rises + RaisedBy(y, a), wire + ShiftedBy(y.tx))
  {
    StageStep(p, y, g, a);
    ShiftsBit(p, y, g);
    assert g.OnLine? ==> Position(p, g.q, g.r) && (g.q == 9 ==> g.r <= p.cycle / 2);
    hide Raised, CoreInput, At, ShiftedBy, Accounted, NextStage;
    assert rises + [] == rises && wire + [] == wire;
    if g.OnLine? {
      OnLineAccounted(p, g.b, g.q, g.r, rises, wire);
    } else {
      OffLineAccounted(p, g, Raised(y.core, CoreInput(y, a)), rises, wire);
    }
  }

  lemma {:induction false} RunIsAccounted(p: Params, arrivals: seq<Arrival>)
    requires Wide(p)
    ensures At(p, Run(p, arrivals), StageAfter(p, arrivals))
    ensures Accounted(p, StageAfter(p, arrivals), Rises(p, arrivals), OnWire(p, arrivals))
  {
    hide Step, At, Accounted, NextStage, RaisedBy, ShiftedBy, Raised, CoreInput, Serial;
    if arrivals == [] {
      StartsAtRest(p);
    } else {
      var before, a := arrivals[..|arrivals| - 1], arrivals[|arrivals| - 1];
      RunIsAccounted(p, before);
      StageStep(p, Run(p, before), StageAfter(p, before), a);
      AccountedStep(p, Run(p, before), StageAfter(p, before), a, Rises(p, before), OnWire(p, before));
    }
  }

  lemma StartsAtRest(p: Params)
    requires Wide(p)
    ensures At(p, System(RESET, TX_RESET), Rest) && Accounted(p, Rest, [], [])
  {
  }

  lemma InFlightIsPrefix(rises: seq<byte>, wire: seq<bool>, b: byte, k: nat)
    requires InFlight(rises, wire, b, k)
    ensures wire <= Serial(rises) && |Serial(rises)| - |wire| == 8 - k
  {
    hide Bits;
    assert Serial(rises) == Serial(rises[..|rises| - 1]) + (Bits(b)[..k] + Bits(b)[k..]);
  }

  // Exactly once: in every run from reset, the data bits on the wire are the bits of the bytes for
  // which o_data_valid rose, in order and without repetition; at most the last byte is incomplete, and
  // it is complete whenever i_state_0 is low and nothing is offered. o_data_valid always equals
  // state_count, and i_state_0 low means that the transmitter is idle.
  lemma ExactlyOnce(p: Params, arrivals: seq<Arrival>)
    requires Wide(p)
    ensures var y, rises, wire := Run(p, arrivals), Rises(p, arrivals), OnWire(p, arrivals);
      && y.core.out.valid == y.core.out.count
      && (!y.tx.busy ==> Tx.AtRest(y.tx))
      && wire <= Serial(rises) && |Serial(rises)| - |wire| <= 8
      && (!y.tx.busy && !y.core.out.valid ==> wire == Serial(rises))
  {
    hide Bits, Serial, Run, Rises, OnWire, StageAfter, Tx.Sending, InFlight;
    RunIsAccounted(p, arrivals);
    match StageAfter(p, arrivals)
    case Offered(b) => InFlightIsPrefix(Rises(p, arrivals), OnWire(p, arrivals), b, 0);
    case Latched(b) => InFlightIsPrefix(Rises(p, arrivals), OnWire(p, arrivals), b, 0);
    case OnLine(b, q, r) => InFlightIsPrefix(Rises(p, arrivals), OnWire(p, arrivals), b, BitsAt(p, q, r));
    case _ =>
  }

  /// The real transmitter is one of the transmitters that the link allows.

  // The hand of a stage: i_state_0 stays high until the line is idle again.
  function HandOf(p: Params, g: Stage): Hand
  {
    match g
    case Rest => Quiet
    case Offered(b) => Pending(b, 0)
    case Latched(b) => Moving(b, Tx.StopsAt(p))
    case OnLine(b, q, r) =>
      Moving(b, if Tx.At(p, q, r) <= Tx.StopsAt(p) + 1 then Tx.StopsAt(p) + 1 - Tx.At(p, q, r) else 0)
    case Stopped(b) => Moving(b, 1)
    case Draining(b) => Moving(b, 0)
  }

  lemma OnLineCountsDown(p: Params, q: nat, r: nat)
    requires Wide(p) && Position(p, q, r) && (q == 9 ==> r <= p.cycle / 2)
    ensures Tx.At(p, q, r) <= Tx.StopsAt(p) - 1
    ensures q == 9 && r == p.cycle / 2 ==> Tx.At(p, q, r) == Tx.StopsAt(p) - 1
  {
    if q < 9 {
      MulMono(q + 1, 9, p.cycle);
      assert (q + 1) * p.cycle == q * p.cycle + p.cycle;
    }
  }

  // One clock of the wired system is one clock of the link between host and coprocessor, with the
  // byte delivered when i_state_0 falls.
  lemma SystemIsALink(p: Params, y: System, v: View, g: Stage, a: Arrival, received: seq<byte>)
    requires Wide(p) && At(p, y, g) && Sees(y.core, v)
    ensures var i := CoreInput(y, a);
      var g' := NextStage(p, g, Raised(y.core, i));
      && Sees(Step(p, y, a).core, NiceProtocol.Step(v, i, Free(y.core, i)))
      && Clocked(Session(v, HandOf(p, g), received),
                 Session(NiceProtocol.Step(v, i, Free(y.core, i)), HandOf(p, g'),
                         if g.Draining? then received + [g.b] else received),
                 a.rx, a.rxValid)
  {
    hide Bits, SboxRom.DataOut, Sees, Next, Presents, NiceProtocol.Step, SboxIn, Raised;
    hide Tx.Sending, Tx.At, Tx.StopsAt, Tx.Next;
    var i := CoreInput(y, a);
    FollowsLinked(y.core, v, i);
    StageStep(p, y, g, a);
    PresentsRaised(y.core, v, i);
    FrameTimes(p);
    if g.OnLine? {
      OnLineCountsDown(p, g.q, g.r);
      Tx.AtNext(p, g.q, g.r);
    }
  }

  lemma PresentsRaised(c: Regs, v: View, i: Input)
    requires Sees(c, v) && i.sbox == SboxRom.DataOut(SboxIn(c.sm4))
    ensures Raised(c, i) == Presents(v, Edge(i.rx, i.rxValid, i.busy), Free(c, i))
  {
    hide Sees, Next, SboxRom.DataOut, SboxIn, Raised;
    Simulates(c, v, i);
  }

  lemma FrameTimes(p: Params)
    requires Wide(p)
    ensures Tx.At(p, 0, 1) == 2 && Tx.StopsAt(p) >= 2
  {
    assert (p.width + 1) * p.cycle >= 0;
  }

  // With the real transmitter the third acknowledgement outlasts the calculation, so no poll comes early.
  lemma AckOutlastsCalculation(p: Params, got: seq<byte>, q: Request, ss: seq<Session>)
    requires Wide(p) && |got| == 12 && Parse(got) == Some(q) && SilentRun(ss) && |ss| == Tx.StopsAt(p) + 2
    requires ss[0].view == Acking(got) && ss[0].hand == HandOf(p, Latched(1))
    ensures ss[|ss| - 1].hand == Quiet && Finished(ss[|ss| - 1].view, q)
  {
    hide Parse;
    MulMono(9, p.width + 1, p.cycle);
    LongAckFinishes(got, q, ss, Tx.StopsAt(p));
  }
}
