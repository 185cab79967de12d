/// The board as the host sees it: the coprocessor with its S-box, and either a transmitter with arbitrary finite
/// delays and bytes that arrive by themselves, or uart_rx.v and uart_tx.v on two serial lines as uart_top.v wires
/// them.

module Device {
  import opened Words
  import opened NiceReference
  import opened NiceCore
  import opened NiceProtocol
  import opened UartBaud
  import opened Link
  import opened Handshake
  import opened SerialLines
  import Rx = UartRx
  import Tx = UartTx
  import Burst = UartBurst
  import UartLink
  import SboxRom

  datatype Transmitter = Vacant(wait: nat) | Busy(b: byte, left: nat)

  // period is the host's bit period, host its receiver on the other line.
  datatype Wires =
    | Ideal(out: Transmitter)
    | Serial(p: Params, period: nat, rx: Rx.Regs, tx: Tx.Regs, host: Sampler)

  // i_rst_n low.
  function RxReset(): Rx.Regs
  {
    Rx.Regs(true, [true, true, true, true, true], UartBaud.Phase.Idle, false, 0, false, 0, Zeros(8), Zeros(8), false)
  }

  // The registers on the lines are in the stage g of a presented byte.
  ghost predicate OnWires(w: Wires, c: Regs, g: Stage)
    requires w.Serial?
  {
    && HostRate(w.p, w.period) && Rx.Shaped(w.p, w.rx)
    && Handshake.At(w.p, System(c, w.tx), g) && w.host == SamplerAt(w.p, g)
  }

  class Board {
    const core: Core
    var wires: Wires
    var received: seq<byte>
    ghost var view: View
    ghost var stage: Stage

    ghost function Hand(): Hand
      reads this, core
    {
      match wires
      case Ideal(Busy(b, l)) => Moving(b, l)
      case Ideal(Vacant(w)) => if core.regs.out.valid then Pending(core.regs.out.data, w) else Quiet
      case Serial(p, _, _, _, _) => HandOf(p, stage)
    }

    ghost function Now(): Session
      reads this, core
    {
      Session(view, Hand(), received)
    }

    // In the middle of a frame from the host.
    ghost predicate Running()
      reads this, core
    {
      Sees(core.regs, view) && (wires.Serial? ==> OnWires(wires, core.regs, stage))
    }

    ghost predicate Valid()
      reads this, core
    {
      Running() && (wires.Serial? ==> Rx.AtRest(wires.p, wires.rx))
    }

    constructor ()
      ensures Valid() && fresh(core) && Now() == Session(Collect([]), Quiet, []) && wires.Ideal?
    {
      core := new Core();
      wires, received := Ideal(Vacant(0)), [];
      view, stage := Collect([]), Rest;
      new;
      assert Kept([]) == [];
    }

    // The board of uart_top.v, with a host whose bit period is period.
    constructor OnLines(p: Params, period: nat)
      requires HostRate(p, period)
      ensures Valid() && fresh(core) && Now() == Session(Collect([]), Quiet, []) && wires.Serial?
      ensures wires.p == p && wires.period == period
    {
      core := new Core();
      wires, received := Serial(p, period, RxReset(), TX_RESET, Hunting), [];
      view, stage := Collect([]), Rest;
      new;
      assert Kept([]) == [];
    }

    // One clock with a transmitter that takes a presented byte after a finite wait and keeps i_state_0 high for a
    // finite time; both are chosen freely.
    method Clock(rx: byte, rxValid: bool)
      requires Running() && wires.Ideal?
      modifies this, core
      ensures Running() && wires.Ideal? && Clocked(old(Now()), Now(), rx, rxValid)
    {
      hide SboxRom.DataOut, Sees, Next, Raised, NiceProtocol.Step, Presents, SboxIn;
      var tx := wires.out;
      var busy := tx.Busy?;
      var valid, data := core.regs.out.valid, core.regs.out.data;
      var i := Input(rx, rxValid, busy, SboxRom.DataOut(SboxIn(core.regs.sm4)));
      FollowsLinked(core.regs, view, i);
      view := NiceProtocol.Step(view, i, Free(core.regs, i));
      core.Posedge(i);
      var delay: nat := *;
      match tx {
        case Vacant(w) =>
          if valid {
            tx := if w == 0 then Busy(data, delay) else Vacant(w - 1);
          } else {
            tx := Vacant(delay);
          }
        case Busy(b, l) =>
          if l == 0 {
            tx, received := Vacant(delay), received + [b];
          } else {
            tx := Busy(b, l - 1);
          }
      }
      wires := Ideal(tx);
    }

    // One clock of uart_top.v with the given level on i_uart_rx, and of the host's receiver on o_uart_tx.
    method Tick(level: bool)
      requires Running() && wires.Serial?
      modifies this, core
      ensures Running() && wires.Serial? && wires.p == old(wires.p) && wires.period == old(wires.period)
      ensures Rx.Shaped(wires.p, old(wires.rx)) && wires.rx == Rx.Next(wires.p, old(wires.rx), level)
      ensures Clocked(old(Now()), Now(), ValueOf(old(wires.rx.out)), old(wires.rx.done))
    {
      hide SboxRom.DataOut, Sees, Next, Raised, NiceProtocol.Step, Presents, SboxIn, Handshake.At, SamplerAt, Clocked;
      hide ValueOf, SampleNext, Sampled, HandOf, Tx.Next, Rx.Next, Bits, HostRate;
      var Serial(p, period, rx, tx, host) := wires;
      ghost var y, a := System(core.regs, tx), Arrival(ValueOf(rx.out), rx.done);
      RateIsWide(p, period);
      AtIsValid(p, y, stage);
      assert received + [] == received;
      SystemIsALink(p, y, view, stage, a, received);
      SamplerStep(p, y, stage, Raised(core.regs, CoreInput(y, a)));
      StageStep(p, y, stage, a);
      var i := Input(ValueOf(rx.out), rx.done, tx.busy, SboxRom.DataOut(SboxIn(core.regs.sm4)));
      assert i == CoreInput(y, a);
      var out := TxInput(core.regs);
      view := NiceProtocol.Step(view, i, Free(core.regs, i));
      stage := NextStage(p, stage, Raised(core.regs, i));
      core.Posedge(i);
      received := received + Sampled(p, host, tx.line);
      wires := Serial(p, period, Rx.Next(p, rx, level), Tx.Next(p, tx, out), SampleNext(p, host, tx.line));
    }

    // One clock in which the host sends nothing.
    method Silence()
      requires Valid()
      modifies this, core
      ensures Valid() && wires.Serial? == old(wires.Serial?) && Clocked(old(Now()), Now(), 0, false)
    {
      hide Sees, Clocked, OnWires;
      if wires.Ideal? {
        Clock(0, false);
      } else {
        ghost var s, rx := Now(), wires.rx;
        RestStays(wires.p, rx);
        Tick(true);
        SilentWhatever(s, Now(), ValueOf(rx.out));
      }
    }

    // The host is silent for at least one clock.
    method Gap(ghost w: Wait)
      requires Valid() && Settleable(w) && Waits(w, Now())
      modifies this, core
      ensures Valid() && wires.Serial? == old(wires.Serial?) && Settled(w, Now()) && received == old(received)
      ensures w.Poll? ==> Remaining(view) <= old(Remaining(view))
    {
      hide Sees, Clocked, Waits, Settled, Remaining, OnWires;
      var more: nat := *;
      ghost var s := Now();
      Silence();
      SilentSettles(w, s, Now());
      while more > 0
        invariant Valid() && wires.Serial? == old(wires.Serial?) && Settled(w, Now()) && received == old(received)
        invariant w.Poll? ==> Remaining(view) <= old(Remaining(view))
      {
        s := Now();
        Silence();
        SilentSettles(w, s, Now());
        more := more - 1;
      }
    }

    // tcflush: what the host has not read is dropped.
    method Flush()
      requires Valid()
      modifies this`received
      ensures Valid() && received == []
    {
      received := [];
    }

    // write(fd, buf, 1).
    method SendByte(x: byte, ghost w: Wait) returns (ghost before: Session)
      requires Valid() && Sendable(w, x) && Waits(w, Now()) && received == []
      modifies this, core
      ensures Valid() && wires.Serial? == old(wires.Serial?)
      ensures Settled(w, before) && Responding(w, x, before, Now())
      ensures w.Poll? ==> Remaining(before.view) <= old(Remaining(view))
    {
      hide Sees, Clocked, Waits, Settled, Remaining, OnWires, Responding, Complete;
      if wires.Ideal? {
        Gap(w);
        before := Now();
        Clock(x, true);
        ByteStartsResponse(w, x, before, Now());
      } else {
        before := SendFrame(x, w);
      }
    }

    // In the middle of the frames of xs, with the receiver waiting for frame i.
    ghost predicate Awaits(rest: Rx.Regs, xs: seq<byte>, gaps: seq<nat>, i: nat)
      requires i <= |gaps| == |xs|
      reads this, core
    {
      && Running() && wires.Serial? && wires.period > 0 && Rx.AtRest(wires.p, rest)
      && wires.rx == Rx.Run(wires.p, rest, FramesLine(wires.p, xs, gaps, wires.period),
                            Burst.WaitsFrom(wires.p, gaps, wires.period, i))
    }

    // Frame i of a burst of up to four on i_uart_rx, until the receiver waits for the next.
    method PlayFrame(ghost rest: Rx.Regs, xs: seq<byte>, gaps: seq<nat>, i: nat, ghost w: Wait)
      returns (ghost before: Session)
      requires i < |xs| == |gaps| <= 4 && Awaits(rest, xs, gaps, i)
      requires Sendable(w, xs[i]) && Waits(w, Now()) && received == []
      modifies this, core
      ensures wires.Serial? && wires.p == old(wires.p) && wires.period == old(wires.period)
      ensures Awaits(rest, xs, gaps, i + 1)
      ensures Settled(w, before) && Responding(w, xs[i], before, Now())
      ensures w.Poll? ==> Remaining(before.view) <= old(Remaining(view))
    {
      hide Sees, Clocked, Waits, Settled, Remaining, Responding, Complete, Handshake.At, SamplerAt, Rx.AtRest;
      hide FramesLine, Rx.DoneAt, ValueOf, HostRate, Rx.Next, Rx.Run, Burst.WaitsFrom, Burst.HeardAt;
      var p, period := wires.p, wires.period;
      var line, k, end := FramesLine(p, xs, gaps, period), Burst.WaitsFrom(p, gaps, period, i),
                          Burst.WaitsFrom(p, gaps, period, i + 1);
      ghost var start, done, s := k, Rx.DoneAt(p, Burst.HeardAt(p, gaps, period, i)), Now();
      RateIsWide(p, period);
      Burst.WaitsInOrder(p, gaps, period, i);
      RestIsQuiet(p, rest);
      before := s;
      while k < end
        invariant start <= k <= end
        invariant Running() && wires.Serial? && wires.p == p && wires.period == period
        invariant wires.rx == Rx.Run(p, rest, line, k)
        invariant k <= done ==> received == [] && if k == start then Waits(w, Now()) else Settled(w, Now())
        invariant k <= done && w.Poll? ==> Remaining(view) <= old(Remaining(view))
        invariant k > done ==> Settled(w, before) && Responding(w, xs[i], before, Now())
        invariant k > done && w.Poll? ==> Remaining(before.view) <= old(Remaining(view))
      {
        s := Now();
        ghost var rx := wires.rx;
        FrameIsHeard(p, rest, xs, gaps, period, i, k);
        Tick(line(k));
        Rx.RunStep(p, rest, line, k);
        if k == done {
          before := s;
          ByteStartsResponse(w, xs[i], before, Now());
        } else {
          SilentWhatever(s, Now(), ValueOf(rx.out));
          if k < done {
            SilentSettles(w, s, Now());
          } else {
            SilentKeepsResponse(w, xs[i], before, s, Now());
          }
        }
        k := k + 1;
      }
    }

    // One more clock of the line after the last frame, and the receiver is at rest.
    method EndFrames(ghost rest: Rx.Regs, xs: seq<byte>, gaps: seq<nat>, ghost x: byte, ghost w: Wait,
                     ghost before: Session)
      requires |xs| == |gaps| <= 4 && Awaits(rest, xs, gaps, |xs|)
      requires Sendable(w, x) && Responding(w, x, before, Now())
      modifies this, core
      ensures Valid() && wires.Serial? && Responding(w, x, before, Now())
    {
      hide Sees, Clocked, Remaining, Responding, Complete, Handshake.At, SamplerAt;
      hide FramesLine, ValueOf, HostRate, Rx.Next, Rx.Run, Burst.WaitsFrom;
      var p, period := wires.p, wires.period;
      var line, n := FramesLine(p, xs, gaps, period), Burst.WaitsFrom(p, gaps, period, |xs|);
      ghost var s, rx := Now(), wires.rx;
      FramesEnd(p, rest, xs, gaps, period, n);
      Tick(line(n));
      Rx.RunStep(p, rest, line, n);
      FramesEnd(p, rest, xs, gaps, period, n + 1);
      SilentWhatever(s, Now(), ValueOf(rx.out));
      SilentKeepsResponse(w, x, before, s, Now());
    }

    // write(fd, buf, 1) on i_uart_rx: one frame after any idle time; the line stays idle until the receiver rests.
    method SendFrame(x: byte, ghost w: Wait) returns (ghost before: Session)
      requires Valid() && wires.Serial? && Sendable(w, x) && Waits(w, Now()) && received == []
      modifies this, core
      ensures Valid() && wires.Serial? && Settled(w, before) && Responding(w, x, before, Now())
      ensures w.Poll? ==> Remaining(before.view) <= old(Remaining(view))
    {
      hide Sees, Clocked, Waits, Settled, Remaining, Responding, Complete, Handshake.At, SamplerAt, FramesLine;
      hide HostRate;
      var gap: nat := *;
      ghost var rest := wires.rx;
      FirstWait(wires.p, rest, [x], [gap], wires.period);
      before := PlayFrame(rest, [x], [gap], 0, w);
      EndFrames(rest, [x], [gap], x, w, before);
    }

    // write(fd, buf, 4) on i_uart_rx: four frames with any idle time before each, none included.
    method SendBurst(b: seq<byte>, ghost got: seq<byte>)
      requires Valid() && wires.Serial?
      requires |b| == 4 && |got| in {0, 4, 8} && Waits(Listen(got), Now()) && received == []
      requires |got| == 8 ==> Complete(got + b)
      modifies this, core
      ensures Valid() && InPhase(Ack(got + b), Now())
    {
      hide Sees, Complete, InPhase, Waits, Settled, FramesLine, Rx.AtRest, Rx.Run, Burst.WaitsFrom, Responding;
      hide HostRate, Handshake.At, SamplerAt;
      var g0: nat, g1: nat, g2: nat, g3: nat := *, *, *, *;
      var gaps := [g0, g1, g2, g3];
      ghost var rest, before := wires.rx, Now();
      FirstWait(wires.p, rest, b, gaps, wires.period);
      var k := 0;
      assert got + b[..0] == got;
      while k < 4
        invariant 0 <= k <= 4 && Awaits(rest, b, gaps, k)
        invariant k < 4 ==> Waits(Listen(got + b[..k]), Now()) && received == []
        invariant k == 4 ==> Responding(Listen(got + b[..3]), b[3], before, Now())
      {
        assert got + b[..k] + [b[k]] == got + b[..k + 1];
        assert k == 3 ==> b[..k + 1] == b;
        before := PlayFrame(rest, b, gaps, k, Listen(got + b[..k]));
        if k < 3 {
          ByteHeld(got + b[..k], b[k], before, Now());
          SettledWaits(Listen(got + b[..k + 1]), Now());
        }
        k := k + 1;
      }
      assert got + b[..3] + [b[3]] == got + b;
      EndFrames(rest, b, gaps, b[3], Listen(got + b[..3]), before);
      WordHeld(got + b[..3], b[3], before, Now());
    }

    // write(fd, buf, 4): the four bytes of a word.
    method SendWord(b: seq<byte>, ghost got: seq<byte>)
      requires Valid() && |b| == 4 && |got| in {0, 4, 8} && Waits(Listen(got), Now()) && received == []
      requires |got| == 8 ==> Complete(got + b)
      modifies this, core
      ensures Valid() && InPhase(Ack(got + b), Now())
    {
      hide Sees, OnWires, Complete, InPhase, Waits, Settled, Responding;
      if wires.Serial? {
        SendBurst(b, got);
        return;
      }
      var k := 0;
      assert got + b[..0] == got;
      while k < 4
        invariant 0 <= k <= 4 && Valid() && wires.Ideal?
        invariant k < 4 ==> Waits(Listen(got + b[..k]), Now()) && received == []
        invariant k == 4 ==> InPhase(Ack(got + b), Now())
      {
        assert got + b[..k] + [b[k]] == got + b[..k + 1];
        assert k == 3 ==> b[..k + 1] == b;
        ghost var before := SendByte(b[k], Listen(got + b[..k]));
        if k < 3 {
          ByteHeld(got + b[..k], b[k], before, Now());
          SettledWaits(Listen(got + b[..k + 1]), Now());
        } else {
          WordHeld(got + b[..k], b[k], before, Now());
        }
        k := k + 1;
      }
    }

    // read(fd, buf, n): after one or more clocks, either nothing or the n awaited bytes.
    method Receive(n: nat, ghost p: Link.Phase) returns (b: seq<byte>)
      requires Valid() && InPhase(p, Now()) && n == Awaited(p)
      modifies this, core
      ensures Valid()
      ensures b == [] ==> Progress(p, old(Now()), Now())
      ensures b != [] ==> received == [] && InPhase(p, Session(view, Hand(), b)) && Done(p, Session(view, Hand(), b))
      ensures old(Done(p, Now())) ==> b != []
      ensures p.Polled? ==> Remaining(view) <= old(Remaining(view))
    {
      hide Sees, Clocked, Remaining, InPhase, Coarse, Fine, Parse, Reply, OnWires;
      var more: nat := *;
      ghost var s := Now();
      Silence();
      SilentProgress(p, s, Now());
      while more > 0
        invariant Valid() && Progress(p, old(Now()), Now())
        invariant p.Polled? ==> Remaining(view) <= old(Remaining(view))
      {
        s := Now();
        Silence();
        SilentProgress(p, s, Now());
        ProgressAddsUp(p, old(Now()), s, Now());
        more := more - 1;
      }
      if |received| >= n {
        b, received := received, [];
      } else {
        b := [];
      }
    }
  }

  lemma RateIsWide(p: Params, period: nat)
    requires HostRate(p, period)
    ensures Wide(p)
  {
  }

  lemma AtIsValid(p: Params, y: System, g: Stage)
    requires Wide(p) && Handshake.At(p, y, g)
    ensures NiceCore.Valid(y.core)
  {
  }

  // Before its first frame a receiver at rest has only begun to wait.
  lemma FirstWait(p: Params, s: Rx.Regs, xs: seq<byte>, gaps: seq<nat>, period: nat)
    requires HostRate(p, period) && Rx.AtRest(p, s) && |xs| == |gaps|
    ensures period > 0
    ensures s == Rx.Run(p, s, FramesLine(p, xs, gaps, period), Burst.WaitsFrom(p, gaps, period, 0))
  {
    assert UartLink.WithinTolerance(p, period, Burst.FullLag(p, period, 0));
    hide FramesLine;
  }

  // What a byte in the middle of a word, and the last of a word, set off.
  lemma ByteHeld(got: seq<byte>, x: byte, before: Session, s: Session)
    requires Responding(Listen(got), x, before, s) && (|got| + 1) % 4 != 0
    ensures Settled(Listen(got + [x]), s) && s.received == []
  {
  }

  lemma WordHeld(got: seq<byte>, x: byte, before: Session, s: Session)
    requires Responding(Listen(got), x, before, s) && (|got| + 1) % 4 == 0
    ensures InPhase(Ack(got + [x]), s)
  {
  }
}
