/// uart_tx.v and the clock divider it shares with uart_rx.v, without parity (PARITY_ON = 0).

module UartBaud {

  // CYCLE clocks a bit and DATA_WIDTH bits a word; the divider register has 16 bits, the bit counter 4.
  datatype Params = Params(cycle: nat, width: nat)

  ghost predicate Supported(p: Params) { 4 <= p.cycle <= 65536 && 1 <= p.width <= 15 }

  // The eight-bit words of uart_top.v.
  ghost predicate Wide(p: Params) { Supported(p) && p.width == 8 }

  datatype Phase = Idle | Start | Data | End

  function BaudNext(p: Params, baudValid: bool, baudCnt: nat): nat
  {
    if !baudValid then 0
    else if baudCnt == p.cycle - 1 then 0
    else (baudCnt + 1) % 65536
  }

  predicate PulseNext(p: Params, baudCnt: nat) { baudCnt == p.cycle / 2 - 1 }

  function PhaseNext(p: Params, cur: Phase, bitCnt: nat): Phase
  {
    match cur
    case Idle => Start
    case Start => Data
    case Data => if bitCnt == p.width then End else Data
    case End => Idle
  }

  function CurrentNext(p: Params, cur: Phase, baudValid: bool, baudCnt: nat, bitCnt: nat): Phase
  {
    if !baudValid then Idle
    else if baudCnt == 0 then PhaseNext(p, cur, bitCnt)
    else cur
  }

  function Zeros(n: nat): (z: seq<bool>)
    ensures |z| == n
  {
    seq(n, _ => false)
  }

  // Position r (from 1 to CYCLE) inside the q-th bit period after the divider was started.

  function PeriodPhase(p: Params, q: nat): Phase
  {
    if q == 0 then Start else if q <= p.width then Data else End
  }

  function BaudAt(p: Params, r: nat): nat { if r == p.cycle then 0 else r }

  // Data bits handled before position (q, r).
  function BitsAt(p: Params, q: nat, r: nat): nat
  {
    if q == 0 then 0
    else if q > p.width then p.width
    else if r > p.cycle / 2 then q else q - 1
  }

  ghost predicate Position(p: Params, q: nat, r: nat)
  {
    q <= p.width + 1 && 1 <= r <= p.cycle
  }

  // The divider, the pulse and the phase move from one position to the next.
  lemma DividerAdvances(p: Params, q: nat, r: nat)
    requires Supported(p) && Position(p, q, r)
    ensures r < p.cycle ==>
      && BaudNext(p, true, BaudAt(p, r)) == BaudAt(p, r + 1)
      && CurrentNext(p, PeriodPhase(p, q), true, BaudAt(p, r), BitsAt(p, q, r)) == PeriodPhase(p, q)
    ensures r == p.cycle ==>
      && BaudNext(p, true, BaudAt(p, r)) == BaudAt(p, 1)
      && CurrentNext(p, PeriodPhase(p, q), true, BaudAt(p, r), BitsAt(p, q, r))
         == (if q == p.width + 1 then Idle else PeriodPhase(p, q + 1))
    ensures PulseNext(p, BaudAt(p, r)) == (if r < p.cycle then r + 1 == p.cycle / 2 else false)
  {
  }

  lemma BitsAdvance(p: Params, q: nat, r: nat)
    requires Supported(p) && Position(p, q, r)
    ensures r < p.cycle ==>
      BitsAt(p, q, r + 1) == BitsAt(p, q, r) + if PeriodPhase(p, q) == Data && r == p.cycle / 2 then 1 else 0
    ensures r == p.cycle ==> BitsAt(p, q + 1, 1) == BitsAt(p, q, r)
    ensures BitsAt(p, q, r) <= p.width && (q == p.width + 1 ==> BitsAt(p, q, r) == p.width)
    ensures PeriodPhase(p, q) == Data && r == p.cycle / 2 ==> BitsAt(p, q, r) == q - 1
  {
  }

  // The divider blocks, which both modules repeat.
  method Divider(p: Params, cur: Phase, baudValid: bool, baudCnt: nat, bitCnt: nat)
    returns (count: nat, pulse: bool, phase: Phase)
    requires Supported(p) && baudCnt < 65536
    ensures count == BaudNext(p, baudValid, baudCnt) < 65536
    ensures pulse == PulseNext(p, baudCnt)
    ensures phase == CurrentNext(p, cur, baudValid, baudCnt, bitCnt)
  {
    count, pulse, phase := baudCnt, false, cur;
    if !baudValid {
      count := 0;
    } else if baudCnt == p.cycle - 1 {
      count := 0;
    } else {
      count := (baudCnt + 1) % 65536;
    }
    if baudCnt == p.cycle / 2 - 1 {
      pulse := true;
    }
    if !baudValid {
      phase := Idle;
    } else if baudValid && baudCnt == 0 {
      phase := match cur
        case Idle => Start
        case Start => Data
        case Data => if bitCnt == p.width then End else Data
        case End => Idle;
    }
  }
}

module UartTx {
  import opened Arith
  import opened UartBaud

  datatype Regs = Regs(
    cur: Phase, baudValid: bool, baudCnt: nat, pulse: bool,
    txCnt: nat, data: seq<bool>, line: bool, busy: bool)

  // A word is a sequence of bits, least significant first.
  datatype Input = Input(valid: bool, data: seq<bool>)

  // The output block: one case per phase. busy is o_state_0, line is o_uart_tx.
  function Next(p: Params, s: Regs, i: Input): Regs
  {
    var t := s.(baudCnt := BaudNext(p, s.baudValid, s.baudCnt),
                pulse := PulseNext(p, s.baudCnt),
                cur := CurrentNext(p, s.cur, s.baudValid, s.baudCnt, s.txCnt));
    match s.cur
    case Idle =>
      if i.valid then t.(line := true, txCnt := 0, busy := true, baudValid := true, data := i.data)
      else t.(line := true, txCnt := 0, busy := false)
    case Start => if s.pulse then t.(line := false) else t
    case Data =>
      if s.pulse && s.data != []
      then t.(txCnt := (s.txCnt + 1) % 16, line := s.data[0], data := s.data[1..] + [false])
      else t
    case End => if s.pulse then t.(line := true, baudValid := false) else t
  }

  // The registers after n clocks of the input i.
  function Run(p: Params, s: Regs, i: nat -> Input, n: nat): Regs
  {
    if n == 0 then s else Next(p, Run(p, s, i, n - 1), i(n - 1))
  }

  ghost predicate AtRest(s: Regs)
  {
    s.cur == Idle && !s.baudValid && s.baudCnt == 0 && s.line
  }

  // The word that is sent when the input becomes valid at an idle transmitter: the second clock
  // latches the input again if it is still valid.
  function Latched(i: nat -> Input): seq<bool>
  {
    if i(1).valid then i(1).data else i(0).data
  }

  // o_uart_tx at position (q, r) of the frame of w.
  function LineAt(p: Params, w: seq<bool>, q: nat, r: nat): bool
    requires |w| == p.width && q <= p.width + 1
  {
    var half := p.cycle / 2;
    if q == 0 then r <= half
    else if q == 1 && r <= half then false
    else if r <= half then w[q - 2]
    else if q <= p.width then w[q - 1]
    else true
  }

  // All registers at position (q, r), up to the end of the transmission.
  ghost predicate Sending(p: Params, s: Regs, w: seq<bool>, busy: bool, q: nat, r: nat)
    requires |w| == p.width && Position(p, q, r)
  {
    && s.baudValid && s.baudCnt == BaudAt(p, r) && s.pulse == (r == p.cycle / 2)
    && s.cur == PeriodPhase(p, q) && s.txCnt == BitsAt(p, q, r)
    && s.data == w[s.txCnt..] + Zeros(s.txCnt)
    && s.line == LineAt(p, w, q, r) && s.busy == busy
  }

  lemma LineAdvances(p: Params, w: seq<bool>, q: nat, r: nat)
    requires Supported(p) && |w| == p.width && Position(p, q, r)
    ensures r < p.cycle && r != p.cycle / 2 ==> LineAt(p, w, q, r + 1) == LineAt(p, w, q, r)
    ensures r == p.cycle / 2 ==>
      LineAt(p, w, q, r + 1) == if q == 0 then false else if q <= p.width then w[q - 1] else true
    ensures r == p.cycle && q <= p.width ==> LineAt(p, w, q + 1, 1) == LineAt(p, w, q, r)
  {
  }

  lemma SendingStep(p: Params, s: Regs, i: Input, w: seq<bool>, busy: bool, q: nat, r: nat)
    requires Supported(p) && |w| == p.width && Position(p, q, r) && Sending(p, s, w, busy, q, r)
    requires q == p.width + 1 ==> r < p.cycle / 2
    ensures r < p.cycle ==> Sending(p, Next(p, s, i), w, busy, q, r + 1)
    ensures r == p.cycle ==> Sending(p, Next(p, s, i), w, busy, q + 1, 1)
  {
    hide BaudAt, BitsAt, LineAt, BaudNext, PulseNext, CurrentNext;
    DividerAdvances(p, q, r);
    BitsAdvance(p, q, r);
    LineAdvances(p, w, q, r);
    if s.cur == Data && s.pulse {
      var k := s.txCnt;
      assert w[k..] + Zeros(k) == [w[k]] + (w[k + 1..] + Zeros(k));
      assert w[k + 1..] + Zeros(k) + [false] == w[k + 1..] + Zeros(k + 1);
    }
  }

  // The clock at which position (q, r) is reached, when the word is accepted at clock 0.
  function At(p: Params, q: nat, r: nat): nat { 1 + q * p.cycle + r }

  ghost predicate Accepts(p: Params, s: Regs, i: nat -> Input)
  {
    && Supported(p) && AtRest(s) && i(0).valid && |i(0).data| == p.width && |i(1).data| == p.width
  }

  // The whole transmission, whatever the input does from clock 2 on.
  lemma {:induction false} FrameIsSent(p: Params, s: Regs, i: nat -> Input, q: nat, r: nat)
    requires Accepts(p, s, i) && Position(p, q, r) && (q == p.width + 1 ==> r <= p.cycle / 2)
    ensures Sending(p, Run(p, s, i, At(p, q, r)), Latched(i), i(1).valid, q, r)
    decreases q, r
  {
    hide Next, Sending, At, Run, AtRest, Latched, StopsAt;
    FrameBegins(p, s, i);
    if r > 1 {
      FrameIsSent(p, s, i, q, r - 1);
      FrameAdvances(p, s, i, q, r - 1);
    } else if q > 0 {
      FrameIsSent(p, s, i, q - 1, p.cycle);
      FrameAdvances(p, s, i, q - 1, p.cycle);
    }
  }

  lemma FrameAdvances(p: Params, s: Regs, i: nat -> Input, q: nat, r: nat)
    requires Accepts(p, s, i) && Position(p, q, r) && (q == p.width + 1 ==> r < p.cycle / 2)
    requires Sending(p, Run(p, s, i, At(p, q, r)), Latched(i), i(1).valid, q, r)
    ensures r < p.cycle ==> Sending(p, Run(p, s, i, At(p, q, r + 1)), Latched(i), i(1).valid, q, r + 1)
    ensures r == p.cycle ==> Sending(p, Run(p, s, i, At(p, q + 1, 1)), Latched(i), i(1).valid, q + 1, 1)
  {
    hide Next, Sending, At, Run;
    var m := At(p, q, r);
    SendingStep(p, Run(p, s, i, m), i(m), Latched(i), i(1).valid, q, r);
    AtNext(p, q, r);
    RunStep(p, s, i, m);
  }

  lemma AtNext(p: Params, q: nat, r: nat)
    ensures At(p, q, r + 1) == At(p, q, r) + 1 && At(p, q + 1, 1) == At(p, q, p.cycle) + 1
  {
    assert (q + 1) * p.cycle == q * p.cycle + p.cycle;
  }

  lemma RunStep(p: Params, s: Regs, i: nat -> Input, n: nat)
    ensures Run(p, s, i, n + 1) == Next(p, Run(p, s, i, n), i(n))
  {
  }

  lemma FrameBegins(p: Params, s: Regs, i: nat -> Input)
    requires Accepts(p, s, i)
    ensures |Latched(i)| == p.width && Sending(p, Run(p, s, i, At(p, 0, 1)), Latched(i), i(1).valid, 0, 1)
  {
    var accepted := Next(p, s, i(0));
    assert Run(p, s, i, 1) == Next(p, Run(p, s, i, 0), i(0));
    assert Run(p, s, i, 2) == Next(p, accepted, i(1));
    assert Latched(i)[0..] + Zeros(0) == Latched(i);
  }

  // The clock at which the line changes to the start bit.
  function StartsAt(p: Params): nat { 2 + p.cycle / 2 }

  // The clock at which the stop bit begins.
  function StopsAt(p: Params): nat { StartsAt(p) + (p.width + 1) * p.cycle }

  // The three clocks around the end of a transmission.
  lemma FrameEnds(p: Params, s: Regs, i: nat -> Input)
    requires Accepts(p, s, i)
    ensures var e := StopsAt(p);
      && (var t := Run(p, s, i, e); t.cur == End && !t.baudValid && t.line && t.busy == i(1).valid)
      && (var t := Run(p, s, i, e + 1); AtRest(t) && t.busy == i(1).valid)
  {
    hide Run, Next, AtRest, Sending, At, StopsAt, Latched;
    var half := p.cycle / 2;
    FrameIsSent(p, s, i, p.width + 1, half);
    LatchedWidth(p, i);
    StopIsNext(p);
    var m := At(p, p.width + 1, half);
    RunStep(p, s, i, m);
    RunStep(p, s, i, m + 1);
    LastTwoSteps(p, Run(p, s, i, m), i(m), i(m + 1), Latched(i), i(1).valid);
  }

  lemma LatchedWidth(p: Params, i: nat -> Input)
    requires |i(0).data| == p.width && |i(1).data| == p.width
    ensures |Latched(i)| == p.width
  {
  }

  lemma StopIsNext(p: Params)
    ensures StopsAt(p) == At(p, p.width + 1, p.cycle / 2) + 1
  {
  }

  lemma LastTwoSteps(p: Params, t: Regs, i: Input, j: Input, w: seq<bool>, busy: bool)
    requires Supported(p) && |w| == p.width && Sending(p, t, w, busy, p.width + 1, p.cycle / 2)
    ensures var u := Next(p, t, i);
      && u.cur == End && !u.baudValid && u.line && u.busy == busy
      && AtRest(Next(p, u, j)) && Next(p, u, j).busy == busy
  {
    hide LineAt, BitsAt;
  }

  // An idle transmitter with no valid input stays idle, and o_state_0 is low from the second clock on.
  lemma {:induction false} StaysAtRest(p: Params, s: Regs, i: nat -> Input, m: nat, n: nat)
    requires m <= n && AtRest(Run(p, s, i, m)) && forall k :: m <= k < n ==> !i(k).valid
    ensures AtRest(Run(p, s, i, n)) && (m < n ==> !Run(p, s, i, n).busy)
    decreases n
  {
    hide Next, AtRest, Run;
    if m < n {
      StaysAtRest(p, s, i, m, n - 1);
      var t := Run(p, s, i, n - 1);
      RestStep(p, t, i(n - 1));
      RunStep(p, s, i, n - 1);
    }
  }

  lemma RestStep(p: Params, t: Regs, i: Input)
    requires AtRest(t) && !i.valid
    ensures AtRest(Next(p, t, i)) && !Next(p, t, i).busy
  {
  }

  // What a receiver sees on the line: level j of the frame is the start bit for j = 0, data bit j - 1
  // up to the width, and the idle level after that.
  function Level(w: seq<bool>, j: nat): bool
  {
    if j == 0 then false else if j <= |w| then w[j - 1] else true
  }

  // o_uart_tx at every clock of the frame: idle, then each level for exactly CYCLE clocks.
  lemma LineCarriesFrame(p: Params, s: Regs, i: nat -> Input, j: nat, x: nat)
    requires Accepts(p, s, i) && j <= p.width && x < p.cycle
    ensures Run(p, s, i, StartsAt(p) + j * p.cycle + x).line == Level(Latched(i), j)
  {
    hide Run, Next, AtRest;
    var half := p.cycle / 2;
    var r := half + 1 + x;
    if r <= p.cycle {
      FrameIsSent(p, s, i, j, r);
      assert At(p, j, r) == StartsAt(p) + j * p.cycle + x;
    } else {
      assert (j + 1) * p.cycle == j * p.cycle + p.cycle;
      FrameIsSent(p, s, i, j + 1, r - p.cycle);
      assert At(p, j + 1, r - p.cycle) == StartsAt(p) + j * p.cycle + x;
    }
  }

  lemma LineIdlesBefore(p: Params, s: Regs, i: nat -> Input, t: nat)
    requires Accepts(p, s, i) && t < StartsAt(p)
    ensures Run(p, s, i, t).line
  {
    hide Run, Next, Sending, Latched;
    if t < 2 {
      FirstClocks(p, s, i);
    } else {
      FrameIsSent(p, s, i, 0, t - 1);
      LatchedWidth(p, i);
      assert At(p, 0, t - 1) == t;
      SendingShows(p, Run(p, s, i, t), Latched(i), i(1).valid, 0, t - 1);
    }
  }

  lemma FirstClocks(p: Params, s: Regs, i: nat -> Input)
    requires Accepts(p, s, i)
    ensures Run(p, s, i, 0).line && Run(p, s, i, 1).line && Run(p, s, i, 1).busy
  {
    RunStep(p, s, i, 0);
    hide BaudNext, PulseNext, CurrentNext;
  }

  lemma SendingShows(p: Params, s: Regs, w: seq<bool>, busy: bool, q: nat, r: nat)
    requires |w| == p.width && Position(p, q, r) && Sending(p, s, w, busy, q, r)
    ensures s.line == LineAt(p, w, q, r) && s.busy == busy
  {
  }

  lemma LineIdlesAfter(p: Params, s: Regs, i: nat -> Input, t: nat)
    requires Accepts(p, s, i) && t >= StopsAt(p) && forall k :: StopsAt(p) + 1 <= k < t ==> !i(k).valid
    ensures Run(p, s, i, t).line
  {
    FrameEnds(p, s, i);
    if t > StopsAt(p) {
      StaysAtRest(p, s, i, StopsAt(p) + 1, t);
    }
  }

  // o_state_0 over a transmission: it is high from the clock after acceptance until the transmitter
  // is idle again exactly when the input is held valid for a second clock; otherwise it falls while
  // the frame is still being sent.
  lemma BusyCoversFrameIffHeld(p: Params, s: Regs, i: nat -> Input)
    requires Accepts(p, s, i)
    ensures Run(p, s, i, 1).busy
    ensures (forall t :: 1 <= t <= StopsAt(p) + 1 ==> Run(p, s, i, t).busy) <==> i(1).valid
  {
    hide Run, Next, Sending, Latched, AtRest;
    FirstClocks(p, s, i);
    if i(1).valid {
      forall t | 1 <= t <= StopsAt(p) + 1 ensures Run(p, s, i, t).busy {
        BusyDuring(p, s, i, t);
      }
    } else {
      FrameIsSent(p, s, i, 0, 1);
      LatchedWidth(p, i);
      assert At(p, 0, 1) == 2;
      SendingShows(p, Run(p, s, i, 2), Latched(i), i(1).valid, 0, 1);
      assert (p.width + 1) * p.cycle >= 1;
      assert 1 <= 2 <= StopsAt(p) + 1 && !Run(p, s, i, 2).busy;
    }
  }

  lemma BusyDuring(p: Params, s: Regs, i: nat -> Input, t: nat)
    requires Accepts(p, s, i) && i(1).valid && 1 <= t <= StopsAt(p) + 1
    ensures Run(p, s, i, t).busy
  {
    hide Run, Next, Sending, Latched, AtRest;
    if t == 1 {
      FirstClocks(p, s, i);
    } else if t >= StopsAt(p) {
      FrameEnds(p, s, i);
    } else {
      var q, r := Split(p, t - 2);
      FrameIsSent(p, s, i, q, r + 1);
      LatchedWidth(p, i);
      SendingShows(p, Run(p, s, i, t), Latched(i), i(1).valid, q, r + 1);
    }
  }

  // Division with remainder, for clocks before the end of the transmission.
  lemma Split(p: Params, n: nat) returns (q: nat, r: nat)
    requires p.cycle > 0 && n < (p.width + 1) * p.cycle + p.cycle / 2
    ensures n == q * p.cycle + r && r < p.cycle && q <= p.width + 1
    ensures q == p.width + 1 ==> r < p.cycle / 2
  {
    q, r := n / p.cycle, n % p.cycle;
    DivMod(n, p.cycle);
    assert (p.width + 2) * p.cycle == (p.width + 1) * p.cycle + p.cycle;
    MulLess(q, p.width + 2, p.cycle);
  }

  /// The four clocked blocks as written; every block reads the registers from before the edge.
  class Transmitter {
    const p: Params
    var regs: Regs

    // i_rst_n low.
    constructor (p: Params)
      ensures this.p == p && AtRest(regs) && !regs.busy
    {
      this.p := p;
      regs := Regs(Idle, false, 0, false, 0, Zeros(p.width), true, false);
    }

    method Posedge(i: Input)
      requires Supported(p) && |regs.data| == p.width && regs.baudCnt < 65536
      requires |i.data| == p.width
      modifies this
      ensures regs == Next(p, old(regs), i) && |regs.data| == p.width && regs.baudCnt < 65536
    {
      var s := regs;
      var baudCnt, pulse, cur := Divider(p, s.cur, s.baudValid, s.baudCnt, s.txCnt);
      hide BaudNext, PulseNext, CurrentNext;
      var n := s.(baudCnt := baudCnt, pulse := pulse, cur := cur);
      match s.cur {
        case Idle =>
          n := n.(line := true, txCnt := 0, busy := false);
          if i.valid {
            n := n.(baudValid := true, data := i.data, busy := true);
          }
        case Start =>
          if s.pulse {
            n := n.(line := false);
          }
        case Data =>
          if s.pulse {
            n := n.(txCnt := (s.txCnt + 1) % 16, line := s.data[0], data := s.data[1..] + [false]);
          }
        case End =>
          if s.pulse {
            n := n.(line := true, baudValid := false);
          }
      }
      regs := n;
    }
  }
}
